/**
 * The page's mutable state and its event handlers
 * (EcoVoyage/web/script.js:9, 136-191, 221-295): the three sections and
 * which of them is displayed, the module-level `tripData`, and the three
 * number fields that `restart` resets.
 */
module Screens {
  import opened Wrappers
  import opened Catalog
  import opened Pricing

  /** The sections `showOnly` switches between, in the order of its `sections` array. */
  datatype Section = LoginPage | PlannerPage | ThankYouPage

  const Sections: seq<Section> := [LoginPage, PlannerPage, ThankYouPage]

  /** The messages the handlers `alert`. */
  datatype Alert = SelectCity | EnterContact | CalculateFirst

  /** How a handler ended: normally, after an alert, or by a TypeError thrown out of it. */
  datatype Outcome = Completed | Alerted(alert: Alert) | Threw

  /** Where `s` stands in the `sections` array. */
  function Position(s: Section): (i: nat)
    ensures i < |Sections| && Sections[i] == s
  {
    match s
    case LoginPage => 0
    case PlannerPage => 1
    case ThankYouPage => 2
  }

  /** The display pattern in which only `s` is shown (`'block'` is true, `'none'` false): one entry per section, exactly one of them true. */
  function OnlyShown(s: Section): (d: seq<bool>)
    ensures |d| == |Sections|
    ensures d[Position(s)]
    ensures forall k :: 0 <= k < |d| && k != Position(s) ==> !d[k]
  {
    seq(|Sections|, k requires 0 <= k < |Sections| => Sections[k] == s)
  }

  // ----- `String.prototype.trim` -----

  /** The characters ECMAScript's `trim` removes: white space and line terminators. */
  predicate IsJsSpace(c: char)
  {
    || c == '\t' || c == '\n' || c == '\U{B}' || c == '\U{C}' || c == '\r' || c == ' '
    || c == '\U{A0}' || c == '\U{1680}' || ('\U{2000}' <= c <= '\U{200A}')
    || c == '\U{2028}' || c == '\U{2029}' || c == '\U{202F}' || c == '\U{205F}'
    || c == '\U{3000}' || c == '\U{FEFF}'
  }

  function TrimStart(s: string): (r: string)
    ensures |r| <= |s| && r == s[|s| - |r|..]
    ensures r != [] ==> !IsJsSpace(r[0])
    ensures forall k :: 0 <= k < |s| - |r| ==> IsJsSpace(s[k])
  {
    if s != [] && IsJsSpace(s[0]) then TrimStart(s[1..]) else s
  }

  function TrimEnd(s: string): (r: string)
    ensures |r| <= |s| && r == s[..|r|]
    ensures r != [] ==> !IsJsSpace(r[|r| - 1])
    ensures forall k :: |r| <= k < |s| ==> IsJsSpace(s[k])
  {
    if s != [] && IsJsSpace(s[|s| - 1]) then TrimEnd(s[..|s| - 1]) else s
  }

  function Trim(s: string): string
  {
    TrimEnd(TrimStart(s))
  }

  /** A field is blank after trimming exactly when every character of it is white space. */
  lemma TrimBlank(s: string)
    ensures Trim(s) == [] <==> forall k :: 0 <= k < |s| ==> IsJsSpace(s[k])
  {
    var t := TrimStart(s);
    if Trim(s) == [] {
      forall k | 0 <= k < |s| ensures IsJsSpace(s[k]) {
        if k >= |s| - |t| {
          assert s[k] == t[k - (|s| - |t|)];
        }
      }
    } else {
      var r := Trim(s);
      assert r == t[..|r|];
      assert t == s[|s| - |t|..];
      assert r[0] == s[|s| - |t|];
    }
  }

  /** The trimmed text is a contiguous part of the input that neither starts nor ends with white space. */
  lemma TrimShape(s: string)
    ensures exists i, j :: 0 <= i <= j <= |s| && Trim(s) == s[i..j]
    ensures Trim(s) != [] ==> !IsJsSpace(Trim(s)[0]) && !IsJsSpace(Trim(s)[|Trim(s)| - 1])
  {
    var t := TrimStart(s);
    var r := Trim(s);
    var i := |s| - |t|;
    assert t == s[i..];
    assert r == t[..|r|] == s[i..i + |r|];
    if r != [] {
      assert r[0] == t[0];
    }
  }

  /** `!name || !phone || !email` after trimming each field. */
  predicate AnyBlank(name: string, phone: string, email: string)
  {
    Trim(name) == [] || Trim(phone) == [] || Trim(email) == []
  }

  /** The page: what is displayed, the stored trip, and the three number fields. */
  class App {
    /** The price tables the page was loaded with (the declared `Data`). */
    const catalog: Catalog
    /** `style.display` of the loginPage, plannerPage and thankYouPage sections: true is `'block'`. */
    var display: seq<bool>
    /** The module-level `tripData`; `None` is `null`. */
    var tripData: Option<Breakdown>
    /** The values `parseInt` reads from the #rooms, #travelers and #days fields (blank reads as 1). */
    var rooms: int
    var travelers: int
    var days: int

    /** Exactly one section is displayed. */
    ghost predicate Valid()
      reads this
    {
      display == OnlyShown(LoginPage) || display == OnlyShown(PlannerPage) || display == OnlyShown(ThankYouPage)
    }

    /** The displayed section. */
    function Screen(): (s: Section)
      reads this
      requires Valid()
      ensures display == OnlyShown(s)
    {
      assert Sections[0] == LoginPage && Sections[1] == PlannerPage;
      if display[0] then LoginPage
      else if display[1] then PlannerPage
      else ThankYouPage
    }

    /** Past the planner only with a computed trip: the login and thank-you pages are shown only while `tripData` is set. */
    ghost predicate Consistent()
      reads this
    {
      Valid() && (Screen() != PlannerPage ==> tripData.Some?)
    }

    /** The page as loaded: the planner is displayed, no trip is stored, the fields hold their initial values. */
    constructor (rooms: int, travelers: int, days: int)
      ensures Consistent() && Screen() == PlannerPage && tripData == None
      ensures catalog == Data
      ensures this.rooms == rooms && this.travelers == travelers && this.days == days
    {
      catalog := Data;
      display := OnlyShown(PlannerPage);
      tripData := None;
      this.rooms, this.travelers, this.days := rooms, travelers, days;
    }

    /** The user types into the three number fields (a DOM event, outside the script). */
    method EditCounts(rooms: int, travelers: int, days: int)
      modifies this`rooms, this`travelers, this`days
      ensures this.rooms == rooms && this.travelers == travelers && this.days == days
    {
      this.rooms, this.travelers, this.days := rooms, travelers, days;
    }

    /** `showOnly(id)`: walks the three sections, displaying the named one and hiding the others. */
    method ShowOnly(id: Section)
      requires |display| == |Sections|
      modifies this`display
      ensures Valid() && Screen() == id
      ensures forall k :: 0 <= k < |Sections| ==> (display[k] <==> Sections[k] == id)
    {
      for k := 0 to |Sections|
        invariant |display| == |Sections|
        invariant forall j :: 0 <= j < k ==> (display[j] <==> Sections[j] == id)
      {
        display := display[k := Sections[k] == id];
      }
      assert display == OnlyShown(id);
    }

    /**
     * `calculatePlan()`: with a city resolved, prices the selection against
     * the catalog, stores the breakdown and shows the login page; otherwise
     * alerts (no city) or throws (an undefined cuisine, hotel or travel
     * class), leaving everything as it was.
     */
    method CalculatePlan(sel: Selection) returns (outcome: Outcome)
      requires Valid()
      modifies this`display, this`tripData
      ensures Valid()
      ensures var r := Plan(catalog, sel, old(rooms), old(travelers), old(days));
        if r.Ok? then
          tripData == Some(r.value) && Screen() == LoginPage && outcome == Completed
        else
          tripData == old(tripData) && display == old(display)
          && outcome == (if r.error == NoCity then Alerted(SelectCity) else Threw)
      ensures old(Consistent()) ==> Consistent()
    {
      if !CityResolves(catalog, sel.city) {
        return Alerted(SelectCity);
      }
      var city := catalog.cities[sel.city];
      var rooms := AtLeastOne(this.rooms);
      var travelers := AtLeastOne(this.travelers);
      var days := AtLeastOne(this.days);

      var destCost := AccumulateDestCost(city.attractions, sel.attractions, days);

      if !(0 <= sel.cuisine < |catalog.cuisines|) { return Threw; }
      if !(0 <= sel.hotel < |catalog.hotels|) { return Threw; }
      if !(0 <= sel.travelClass < |catalog.travelClasses|) { return Threw; }
      var b := Priced(city, destCost, catalog.cuisines[sel.cuisine], catalog.hotels[sel.hotel],
                      catalog.travelClasses[sel.travelClass], rooms, travelers, days,
                      DestNames(city.attractions, sel.attractions));
      assert Plan(catalog, sel, this.rooms, this.travelers, this.days) == Ok(b);
      tripData := Some(b);
      ShowOnly(LoginPage);
      outcome := Completed;
    }

    /**
     * `handleLogin()`: a name, phone or email that is blank after trimming
     * raises an alert and changes nothing; otherwise control passes to
     * `showThankYou`.
     */
    method HandleLogin(name: string, phone: string, email: string) returns (outcome: Outcome)
      requires Valid()
      modifies this`display
      ensures Valid() && tripData == old(tripData)
      ensures AnyBlank(name, phone, email) ==> outcome == Alerted(EnterContact) && display == old(display)
      ensures !AnyBlank(name, phone, email) && tripData.None? ==> outcome == Alerted(CalculateFirst) && Screen() == PlannerPage
      ensures !AnyBlank(name, phone, email) && tripData.Some? ==> outcome == Completed && Screen() == ThankYouPage
      ensures old(Consistent()) ==> Consistent()
    {
      var name, phone, email := Trim(name), Trim(phone), Trim(email);
      if name == [] || phone == [] || email == [] {
        return Alerted(EnterContact);
      }
      outcome := ShowThankYou(name, phone, email);
    }

    /**
     * `showThankYou(name, phone, email)`: without a stored trip, alerts and
     * sends the user back to the planner; with one, shows the thank-you page.
     * The contact details only feed the rendered text, which is not modelled.
     */
    method ShowThankYou(name: string, phone: string, email: string) returns (outcome: Outcome)
      requires Valid()
      modifies this`display
      ensures Valid() && tripData == old(tripData)
      ensures tripData.None? ==> outcome == Alerted(CalculateFirst) && Screen() == PlannerPage
      ensures tripData.Some? ==> outcome == Completed && Screen() == ThankYouPage
    {
      if tripData.None? {
        ShowOnly(PlannerPage);
        return Alerted(CalculateFirst);
      }
      ShowOnly(ThankYouPage);
      outcome := Completed;
    }

    /** `restart()`: forgets the trip, puts 1 back into the three number fields and shows the planner. */
    method Restart()
      requires Valid()
      modifies this
      ensures Consistent() && Screen() == PlannerPage
      ensures tripData == None && rooms == 1 && travelers == 1 && days == 1
    {
      tripData := None;
      rooms, travelers, days := 1, 1, 1;
      ShowOnly(PlannerPage);
    }
  }

  /** After a restart, confirming contact details cannot reach the thank-you page: the trip must be calculated again. */
  method RestartThenLogin(app: App, name: string, phone: string, email: string) returns (outcome: Outcome)
    requires app.Valid()
    modifies app
    ensures app.Valid() && app.Screen() == PlannerPage && app.tripData == None
    ensures outcome == (if AnyBlank(name, phone, email) then Alerted(EnterContact) else Alerted(CalculateFirst))
  {
    app.Restart();
    outcome := app.HandleLogin(name, phone, email);
  }
}
