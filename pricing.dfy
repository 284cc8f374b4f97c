/**
 * The pricing part of `calculatePlan` (EcoVoyage/web/script.js:136-185):
 * from the planner's selections and the three number fields to the itemised
 * breakdown the page stores in `tripData`.
 *
 * Prices are JavaScript numbers in the source; they are modelled as
 * unbounded integers. The two agree while every figure stays below 2^53,
 * where a double still holds every integer exactly; the counts are user
 * input, so larger figures are possible, and there the page computes
 * rounded doubles that this model does not reproduce.
 */
module Pricing {
  import opened Wrappers
  import opened Catalog

  /** What `calculatePlan` reads from the planner form besides the three number fields. */
  datatype Selection = Selection(
    city: int,               // index into the keys of `cities`
    attractions: seq<int>,   // values of the ticked attraction boxes, in page order
    cuisine: int,
    hotel: int,
    travelClass: int)

  datatype PlanError =
    | NoCity                 // no city under that index: alert and return
    | UndefinedCuisine       // `cuisineObj.cost` on undefined throws a TypeError
    | UndefinedHotel         // likewise `hotelObj.cost`
    | UndefinedTravelClass   // likewise `travelObj.cost`

  /** The record stored in `tripData`, field for field. */
  datatype Breakdown = Breakdown(
    city: string,
    destinations: seq<string>,
    destCost: nat,
    cuisine: string,
    cuisineCostPerMeal: nat,
    foodCost: nat,
    hotel: string,
    hotelCostPerNight: nat,
    hotelCost: nat,
    travelClass: string,
    travelCost: nat,
    rooms: nat,
    travelers: nat,
    days: nat,
    subtotal: nat,
    tax: nat,
    grandTotal: nat)

  /** `Math.max(1, n)`: the clamp applied to rooms, travelers and days. */
  function AtLeastOne(n: int): (r: nat)
    ensures r >= 1 && r >= n
    ensures r == n || r == 1
  {
    if n < 1 then 1 else n
  }

  /** `Object.keys(cities)[cityIndex]` is defined and truthy. */
  predicate CityResolves(cat: Catalog, index: int)
  {
    0 <= index < |cat.cities| && cat.cities[index].name != ""
  }

  /** The cost one chosen index adds: `cost * days` when the index exists, nothing otherwise. */
  function AttractionCost(list: seq<Item>, index: int, days: nat): nat
  {
    if 0 <= index < |list| then list[index].cost * days else 0
  }

  /** `destCost` after the `forEach` over the chosen indexes, accumulated in selection order. */
  function DestCost(list: seq<Item>, chosen: seq<int>, days: nat): nat
  {
    if chosen == [] then 0
    else DestCost(list, chosen[..|chosen| - 1], days) + AttractionCost(list, chosen[|chosen| - 1], days)
  }

  /** The `forEach` loop itself: adds `cost * days` for every chosen index that exists, skipping the rest. */
  method AccumulateDestCost(list: seq<Item>, chosen: seq<int>, days: nat) returns (destCost: nat)
    ensures destCost == DestCost(list, chosen, days)
  {
    destCost := 0;
    var i := 0;
    while i < |chosen|
      invariant 0 <= i <= |chosen|
      invariant destCost == DestCost(list, chosen[..i], days)
    {
      var index := chosen[i];
      if 0 <= index < |list| {
        destCost := destCost + list[index].cost * days;
      }
      assert chosen[..i + 1][..i] == chosen[..i];
      i := i + 1;
    }
    assert chosen[..i] == chosen;
  }

  /** `chosen.map(i => list[i]?.name).filter(Boolean)`: names of the existing, non-empty entries. */
  function DestNames(list: seq<Item>, chosen: seq<int>): seq<string>
  {
    if chosen == [] then []
    else
      var index := chosen[|chosen| - 1];
      DestNames(list, chosen[..|chosen| - 1])
        + (if 0 <= index < |list| && list[index].name != "" then [list[index].name] else [])
  }

  /** `Math.round(subtotal * 0.05)`: the integer nearest to subtotal / 20, halves rounded up. */
  function RoundedTax(subtotal: nat): (tax: nat)
    ensures 20 * tax - 10 <= subtotal < 20 * tax + 10
  {
    (subtotal + 10) / 20
  }

  /**
   * `calculatePlan` as a function: the breakdown it stores, or the point at
   * which it stops. The three counts are the integers `parseInt` read from
   * the fields (a blank field reads as 1).
   */
  function Plan(cat: Catalog, sel: Selection, rooms: int, travelers: int, days: int): (r: Result<Breakdown, PlanError>)
    ensures r == Err(NoCity) <==> !CityResolves(cat, sel.city)
    ensures r.Ok? <==>
      && CityResolves(cat, sel.city)
      && 0 <= sel.cuisine < |cat.cuisines|
      && 0 <= sel.hotel < |cat.hotels|
      && 0 <= sel.travelClass < |cat.travelClasses|
    ensures r.Ok? ==>
      && r.value.city == cat.cities[sel.city].name
      && r.value.rooms >= 1 && r.value.rooms >= rooms
      && r.value.travelers >= 1 && r.value.travelers >= travelers
      && r.value.days >= 1 && r.value.days >= days
      && r.value.subtotal == r.value.destCost + r.value.foodCost + r.value.hotelCost + r.value.travelCost
      && 20 * r.value.tax - 10 <= r.value.subtotal < 20 * r.value.tax + 10
      && r.value.grandTotal == r.value.subtotal + r.value.tax >= r.value.subtotal
  {
    if !CityResolves(cat, sel.city) then Err(NoCity)
    else if !(0 <= sel.cuisine < |cat.cuisines|) then Err(UndefinedCuisine)
    else if !(0 <= sel.hotel < |cat.hotels|) then Err(UndefinedHotel)
    else if !(0 <= sel.travelClass < |cat.travelClasses|) then Err(UndefinedTravelClass)
    else
      var city := cat.cities[sel.city];
      var cuisine, hotel, travel := cat.cuisines[sel.cuisine], cat.hotels[sel.hotel], cat.travelClasses[sel.travelClass];
      var rooms, travelers, days := AtLeastOne(rooms), AtLeastOne(travelers), AtLeastOne(days);
      Ok(Priced(city, DestCost(city.attractions, sel.attractions, days), cuisine, hotel, travel, rooms, travelers, days,
                DestNames(city.attractions, sel.attractions)))
  }

  /**
   * The breakdown once the city, the destination cost and the three options
   * are known and the counts are clamped: three meals a day per traveller,
   * one hotel room per night, one fare per traveller, and the rounded tax.
   */
  function Priced(city: City, destCost: nat, cuisine: Item, hotel: Item, travel: Item,
                  rooms: nat, travelers: nat, days: nat, destinations: seq<string>): (b: Breakdown)
    ensures b.subtotal == b.destCost + b.foodCost + b.hotelCost + b.travelCost
    ensures b.grandTotal == b.subtotal + b.tax
  {
    var foodCost := cuisine.cost * 3 * days * travelers;
    var hotelCost := hotel.cost * days * rooms;
    var travelCost := travel.cost * travelers;
    var subtotal := destCost + foodCost + hotelCost + travelCost;
    var tax := RoundedTax(subtotal);
    Breakdown(
      city.name, destinations, destCost,
      cuisine.name, cuisine.cost, foodCost,
      hotel.name, hotel.cost, hotelCost,
      travel.name, travelCost,
      rooms, travelers, days,
      subtotal, tax, subtotal + tax)
  }

  // ----- A reference reading of the attraction selection -----

  /** The attractions that exist under the chosen indexes, in selection order. */
  function Selected(list: seq<Item>, chosen: seq<int>): (r: seq<Item>)
    ensures |r| <= |chosen|
    ensures forall k :: 0 <= k < |r| ==> r[k] in list
  {
    if chosen == [] then []
    else (if 0 <= chosen[0] < |list| then [list[chosen[0]]] else []) + Selected(list, chosen[1..])
  }

  function TotalCost(items: seq<Item>): nat
  {
    if items == [] then 0 else items[0].cost + TotalCost(items[1..])
  }

  function Names(items: seq<Item>): (r: seq<string>)
    ensures |r| == |items|
  {
    seq(|items|, k requires 0 <= k < |items| => items[k].name)
  }

  lemma {:induction false} SelectedAppend(list: seq<Item>, a: seq<int>, b: seq<int>)
    ensures Selected(list, a + b) == Selected(list, a) + Selected(list, b)
  {
    if a != [] {
      assert (a + b)[0] == a[0];
      assert (a + b)[1..] == a[1..] + b;
      SelectedAppend(list, a[1..], b);
    } else {
      assert a + b == b;
    }
  }

  lemma {:induction false} TotalCostAppend(a: seq<Item>, b: seq<Item>)
    ensures TotalCost(a + b) == TotalCost(a) + TotalCost(b)
  {
    if a != [] {
      assert (a + b)[0] == a[0];
      assert (a + b)[1..] == a[1..] + b;
      TotalCostAppend(a[1..], b);
    } else {
      assert a + b == b;
    }
  }

  /** The loop's running total is `days` times the price of the selected attractions. */
  lemma {:induction false} DestCostIsSelectedTotal(list: seq<Item>, chosen: seq<int>, days: nat)
    ensures DestCost(list, chosen, days) == days * TotalCost(Selected(list, chosen))
  {
    if chosen != [] {
      var init, last := chosen[..|chosen| - 1], chosen[|chosen| - 1];
      assert chosen == init + [last];
      DestCostIsSelectedTotal(list, init, days);
      SelectedAppend(list, init, [last]);
      assert [last][1..] == [];
      var t := TotalCost(Selected(list, init));
      assert DestCost(list, chosen, days) == days * t + AttractionCost(list, last, days);
      if 0 <= last < |list| {
        assert Selected(list, [last]) == [list[last]];
        TotalCostAppend(Selected(list, init), [list[last]]);
        assert TotalCost([list[last]]) == list[last].cost;
        Distribute(days, t, list[last].cost);
      } else {
        assert Selected(list, [last]) == [];
        assert Selected(list, init) + [] == Selected(list, init);
      }
    }
  }

  lemma Distribute(d: nat, t: nat, c: nat)
    ensures d * (t + c) == d * t + c * d
  {
  }

  /** With non-empty catalog names, `destinations` names exactly the selected attractions, in order. */
  lemma {:induction false} DestNamesAreSelected(list: seq<Item>, chosen: seq<int>)
    requires NamesNonEmpty(list)
    ensures DestNames(list, chosen) == Names(Selected(list, chosen))
  {
    if chosen != [] {
      var init, last := chosen[..|chosen| - 1], chosen[|chosen| - 1];
      assert chosen == init + [last];
      DestNamesAreSelected(list, init);
      SelectedAppend(list, init, [last]);
      assert [last][1..] == [];
      if 0 <= last < |list| {
        assert Selected(list, [last]) == [list[last]];
      } else {
        assert Selected(list, [last]) == [];
        assert Selected(list, init) + [] == Selected(list, init);
      }
    }
  }

  /** An index with no attraction behind it changes neither the cost nor the names, wherever it stands. */
  lemma OutOfRangeIgnored(list: seq<Item>, before: seq<int>, index: int, after: seq<int>, days: nat)
    requires !(0 <= index < |list|)
    ensures DestCost(list, before + [index] + after, days) == DestCost(list, before + after, days)
    ensures Selected(list, before + [index] + after) == Selected(list, before + after)
  {
    SelectedAppend(list, before + [index], after);
    SelectedAppend(list, before, [index]);
    SelectedAppend(list, before, after);
    assert [index][1..] == [];
    assert Selected(list, [index]) == [];
    assert Selected(list, before) + [] == Selected(list, before);
    DestCostIsSelectedTotal(list, before + [index] + after, days);
    DestCostIsSelectedTotal(list, before + after, days);
  }

  /** When every chosen index exists, the selection is exactly the indexed attractions. */
  lemma {:induction false} AllInRangeSelected(list: seq<Item>, chosen: seq<int>)
    requires forall k :: 0 <= k < |chosen| ==> 0 <= chosen[k] < |list|
    ensures Selected(list, chosen) == seq(|chosen|, k requires 0 <= k < |chosen| => list[chosen[k]])
  {
    if chosen != [] {
      AllInRangeSelected(list, chosen[1..]);
    }
  }

  /** The food, hotel, travel and destination figures of a stored breakdown, against the catalog. */
  lemma BreakdownFigures(cat: Catalog, sel: Selection, rooms: int, travelers: int, days: int)
    requires Plan(cat, sel, rooms, travelers, days).Ok?
    ensures var b := Plan(cat, sel, rooms, travelers, days).value;
      var list := cat.cities[sel.city].attractions;
      && b.rooms == AtLeastOne(rooms) && b.travelers == AtLeastOne(travelers) && b.days == AtLeastOne(days)
      && b.cuisine == cat.cuisines[sel.cuisine].name && b.cuisineCostPerMeal == cat.cuisines[sel.cuisine].cost
      && b.hotel == cat.hotels[sel.hotel].name && b.hotelCostPerNight == cat.hotels[sel.hotel].cost
      && b.travelClass == cat.travelClasses[sel.travelClass].name
      && b.foodCost == cat.cuisines[sel.cuisine].cost * 3 * b.days * b.travelers
      && b.hotelCost == cat.hotels[sel.hotel].cost * b.days * b.rooms
      && b.travelCost == cat.travelClasses[sel.travelClass].cost * b.travelers
      && b.destCost == b.days * TotalCost(Selected(list, sel.attractions))
      && (sel.attractions == [] ==> b.destCost == 0 && b.destinations == [])
      && (WellFormed(cat) ==> b.destinations == Names(Selected(list, sel.attractions)))
      && |b.destinations| <= |sel.attractions|
  {
    var list := cat.cities[sel.city].attractions;
    var b := Plan(cat, sel, rooms, travelers, days).value;
    DestCostIsSelectedTotal(list, sel.attractions, b.days);
    DestNamesLength(list, sel.attractions);
    if WellFormed(cat) {
      DestNamesAreSelected(list, sel.attractions);
    }
  }

  lemma {:induction false} DestNamesLength(list: seq<Item>, chosen: seq<int>)
    ensures |DestNames(list, chosen)| <= |chosen|
  {
    if chosen != [] {
      DestNamesLength(list, chosen[..|chosen| - 1]);
    }
  }

  /** Paris, Eiffel Tower and Louvre, two days, two travelers, one room, Street Food, City Budget Inn, Economy. */
  lemma ParisExample()
    ensures var r := Plan(Data, Selection(0, [0, 1], 1, 0, 0), 1, 2, 2);
      && r.Ok?
      && r.value.destinations == ["Eiffel Tower", "Louvre Museum"]
      && r.value.destCost == 4200 && r.value.foodCost == 2400
      && r.value.hotelCost == 6000 && r.value.travelCost == 50000
      && r.value.subtotal == 62600 && r.value.tax == 3130 && r.value.grandTotal == 65730
  {
    var list := Data.cities[0].attractions;
    assert [0, 1][..1] == [0];
    assert [0][..0] == [];
    assert DestCost(list, [0, 1], 2) == 4200;
    assert DestNames(list, [0, 1]) == ["Eiffel Tower", "Louvre Museum"];
  }
}
