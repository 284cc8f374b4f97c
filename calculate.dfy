/**
 * The arithmetic of `CalculateHandler.handle`
 * (EcoVoyage/src/Ecovoyage.java:47-69): read six numbers and a
 * comma-separated list of destination prices from the parsed body, using
 * defaults for missing keys and no clamping, and compute the quote in
 * 32-bit `int` arithmetic with a tax truncated toward zero.
 */
module Calculate {
  import opened JavaInt
  import opened SimpleJson

  /** `data.getOrDefault(key, default)`. */
  function GetOrDefault(data: map<string, string>, key: string, default: string): string
  {
    if key in data then data[key] else default
  }

  /** The characters Java's `String.trim` removes: every code point up to U+0020. */
  predicate IsJavaSpace(c: char)
  {
    c <= ' '
  }

  /** `s.trim()`: the text without leading and trailing control characters and spaces. */
  function JavaTrim(s: string): (r: string)
    ensures |r| <= |s|
    ensures r != [] ==> !IsJavaSpace(r[0]) && !IsJavaSpace(r[|r| - 1])
    decreases |s|
  {
    if s != [] && IsJavaSpace(s[0]) then JavaTrim(s[1..])
    else if s != [] && IsJavaSpace(s[|s| - 1]) then JavaTrim(s[..|s| - 1])
    else s
  }

  /** `r` is the part of `s` from `i` on, and everything of `s` before and after it is a character up to U+0020. */
  predicate TrimmedAt(s: string, r: string, i: int)
  {
    && 0 <= i && i + |r| <= |s| && r == s[i..i + |r|]
    && (forall k :: 0 <= k < i ==> IsJavaSpace(s[k]))
    && (forall k :: i + |r| <= k < |s| ==> IsJavaSpace(s[k]))
  }

  /** `trim` removes only a leading and a trailing run of characters up to U+0020 and keeps the rest as it is. */
  lemma {:induction false} JavaTrimShape(s: string)
    ensures exists i :: TrimmedAt(s, JavaTrim(s), i)
    decreases |s|
  {
    var r := JavaTrim(s);
    if s != [] && IsJavaSpace(s[0]) {
      var t := s[1..];
      JavaTrimShape(t);
      var j :| TrimmedAt(t, r, j);
      assert r == s[j + 1..j + 1 + |r|];
      forall k | 0 <= k < j + 1 ensures IsJavaSpace(s[k]) {
        if k > 0 { assert s[k] == t[k - 1]; }
      }
      forall k | j + 1 + |r| <= k < |s| ensures IsJavaSpace(s[k]) {
        assert s[k] == t[k - 1];
      }
      assert TrimmedAt(s, r, j + 1);
    } else if s != [] && IsJavaSpace(s[|s| - 1]) {
      var t := s[..|s| - 1];
      JavaTrimShape(t);
      var j :| TrimmedAt(t, r, j);
      assert r == s[j..j + |r|];
      forall k | j + |r| <= k < |s| ensures IsJavaSpace(s[k]) {
        if k < |s| - 1 { assert s[k] == t[k]; }
      }
      assert TrimmedAt(s, r, j);
    } else {
      assert r == s[0..|s|];
      assert TrimmedAt(s, r, 0);
    }
  }

  /** Every segment reads as an `int` once trimmed. */
  predicate SegmentsReadable(segs: seq<string>)
  {
    forall i :: 0 <= i < |segs| ==> IsJavaInt(JavaTrim(segs[i]))
  }

  /** `Integer.parseInt(s.trim())` of each segment, in order. */
  function SegmentPrices(segs: seq<string>): seq<int>
    requires SegmentsReadable(segs)
  {
    seq(|segs|, i requires 0 <= i < |segs| => ParseInt(JavaTrim(segs[i])))
  }

  /** Every segment of a non-empty destinations string reads as an `int` once trimmed. */
  predicate DestinationsReadable(destStr: string)
  {
    destStr == [] || SegmentsReadable(JavaSplit(destStr, ','))
  }

  /** `Integer.parseInt` succeeds on every field the handler reads (missing keys take their defaults). */
  predicate Readable(data: map<string, string>)
  {
    && IsJavaInt(GetOrDefault(data, "days", "1"))
    && IsJavaInt(GetOrDefault(data, "travelers", "1"))
    && IsJavaInt(GetOrDefault(data, "rooms", "1"))
    && IsJavaInt(GetOrDefault(data, "cuisineCost", "0"))
    && IsJavaInt(GetOrDefault(data, "hotelCost", "0"))
    && IsJavaInt(GetOrDefault(data, "travelCost", "0"))
    && DestinationsReadable(GetOrDefault(data, "destinations", ""))
  }

  /** The numbers the handler works with. */
  datatype Request = Request(
    days: int, travelers: int, rooms: int,
    cuisineCost: int, hotelCost: int, travelCost: int,
    destinations: seq<int>)

  /** The destination prices: one per segment, none for an empty string. */
  function DestinationValues(destStr: string): (vs: seq<int>)
    requires DestinationsReadable(destStr)
    ensures destStr == [] ==> vs == []
    ensures destStr != [] ==> |vs| == |JavaSplit(destStr, ',')|
  {
    if destStr == [] then [] else SegmentPrices(JavaSplit(destStr, ','))
  }

  /** The request a parsed body describes. */
  function Decode(data: map<string, string>): (r: Request)
    requires Readable(data)
    ensures forall k :: 0 <= k < |r.destinations| ==> InRange(r.destinations[k])
    ensures InRange(r.days) && InRange(r.travelers) && InRange(r.rooms)
    ensures InRange(r.cuisineCost) && InRange(r.hotelCost) && InRange(r.travelCost)
  {
    var dests := DestinationValues(GetOrDefault(data, "destinations", ""));
    assert forall k :: 0 <= k < |dests| ==> InRange(dests[k]);
    Request(
      ParseInt(GetOrDefault(data, "days", "1")),
      ParseInt(GetOrDefault(data, "travelers", "1")),
      ParseInt(GetOrDefault(data, "rooms", "1")),
      ParseInt(GetOrDefault(data, "cuisineCost", "0")),
      ParseInt(GetOrDefault(data, "hotelCost", "0")),
      ParseInt(GetOrDefault(data, "travelCost", "0")),
      dests)
  }

  /** The six figures of the response. */
  datatype Quote = Quote(destinations: int, food: int, hotel: int, travel: int, tax: int, total: int)

  function Sum(xs: seq<int>): int
  {
    if xs == [] then 0 else Sum(xs[..|xs| - 1]) + xs[|xs| - 1]
  }

  /** `(int) (total * 0.05)`: a twentieth of the total, truncated toward zero. */
  function TruncatedTax(total: int): (tax: int)
    ensures total >= 0 ==> 0 <= 20 * tax <= total < 20 * tax + 20
    ensures total < 0 ==> 20 * tax - 20 < total <= 20 * tax <= 0
  {
    if total >= 0 then total / 20 else -((-total) / 20)
  }

  /** The quote in exact arithmetic. */
  function Exact(r: Request): Quote
  {
    var dest := Sum(r.destinations) * r.days;
    var food := r.cuisineCost * 3 * r.days * r.travelers;
    var hotel := r.hotelCost * r.days * r.rooms;
    var travel := r.travelCost * r.travelers;
    var total := dest + food + hotel + travel;
    var tax := TruncatedTax(total);
    Quote(dest, food, hotel, travel, tax, total + tax)
  }

  /**
   * The quote the handler produces: each figure is the exact one reduced to
   * 32 bits, the tax is taken from the reduced total, and the grand total
   * is reduced again.
   */
  function Reduced(r: Request): Quote
  {
    ReduceQuote(Exact(r))
  }

  /** Reduces the four exact figures and their sum to 32 bits, then takes the tax from the reduced total. */
  function ReduceQuote(e: Quote): Quote
  {
    var total := Wrap(e.destinations + e.food + e.hotel + e.travel);
    var tax := TruncatedTax(total);
    Quote(Wrap(e.destinations), Wrap(e.food), Wrap(e.hotel), Wrap(e.travel), tax, Wrap(total + tax))
  }

  /** The `for` loop over the destination segments: `destTotal += Integer.parseInt(s.trim()) * days`. */
  method AccumulateDestTotal(segs: seq<string>, days: int) returns (destTotal: int)
    requires SegmentsReadable(segs)
    ensures destTotal == Wrap(Sum(SegmentPrices(segs)) * days)
  {
    ghost var values := SegmentPrices(segs);
    destTotal := 0;
    for i := 0 to |segs|
      invariant destTotal == Wrap(Sum(values[..i]) * days)
    {
      var price := ParseInt(JavaTrim(segs[i]));
      AccumulateStep(Sum(values[..i]), price, days);
      destTotal := Wrap(destTotal + Wrap(price * days));
      assert values[..i + 1][..i] == values[..i];
    }
    assert values[..|segs|] == values;
  }

  lemma AccumulateStep(sum: int, price: int, days: int)
    ensures Wrap(Wrap(sum * days) + Wrap(price * days)) == Wrap((sum + price) * days)
  {
    WrapAdd(sum * days, Wrap(price * days));
    WrapAdd(price * days, sum * days);
    assert (sum + price) * days == price * days + sum * days;
  }

  /** `CalculateHandler.handle` from the request body to the figures of its response. */
  method Handle(body: string) returns (q: Quote, response: seq<(string, string)>)
    requires Readable(Parsed(body))
    ensures q == Reduced(Decode(Parsed(body)))
    ensures response == Response(q)
    ensures forall i :: 0 <= i < |response| ==> IsJavaInt(response[i].1) && ParseInt(response[i].1) == Values(q)[i]
  {
    var data := ParseSimpleJson(body);
    ghost var r := Decode(data);

    var days := ParseInt(GetOrDefault(data, "days", "1"));
    var travelers := ParseInt(GetOrDefault(data, "travelers", "1"));
    var rooms := ParseInt(GetOrDefault(data, "rooms", "1"));
    var cuisineCost := ParseInt(GetOrDefault(data, "cuisineCost", "0"));
    var hotelCost := ParseInt(GetOrDefault(data, "hotelCost", "0"));
    var travelCost := ParseInt(GetOrDefault(data, "travelCost", "0"));

    var destStr := GetOrDefault(data, "destinations", "");
    var destTotal := 0;
    if destStr != [] {
      destTotal := AccumulateDestTotal(JavaSplit(destStr, ','), days);
    }

    assert days == r.days && travelers == r.travelers && rooms == r.rooms;
    assert cuisineCost == r.cuisineCost && hotelCost == r.hotelCost && travelCost == r.travelCost;
    assert destTotal == Wrap(Sum(r.destinations) * r.days);
    q := Figures(days, travelers, rooms, cuisineCost, hotelCost, travelCost, destTotal);
    StepwiseIsReduced(r, destTotal);
    ReducedInRange(r);
    response := Response(q);
    ResponseReadsBack(q);
  }

  /** The six figures of a quote in the order the response lists them. */
  function Values(q: Quote): seq<int>
  {
    [q.destinations, q.food, q.hotel, q.travel, q.tax, q.total]
  }

  /** The six `"key": %d` fields of the response text (lines 71-80), in order. */
  function Response(q: Quote): seq<(string, string)>
  {
    [ ("destinations", Decimal(q.destinations)), ("food", Decimal(q.food)), ("hotel", Decimal(q.hotel)),
      ("travel", Decimal(q.travel)), ("tax", Decimal(q.tax)), ("total", Decimal(q.total)) ]
  }

  /** Every figure the handler replies with is an `int`. */
  lemma ReducedInRange(r: Request)
    ensures forall i :: 0 <= i < |Values(Reduced(r))| ==> InRange(Values(Reduced(r))[i])
  {
  }

  /** Each `%d` field of the response reads back, with `Integer.parseInt`, as the figure it renders. */
  lemma ResponseReadsBack(q: Quote)
    requires forall i :: 0 <= i < |Values(q)| ==> InRange(Values(q)[i])
    ensures |Response(q)| == |Values(q)|
    ensures forall i :: 0 <= i < |Response(q)| ==> IsJavaInt(Response(q)[i].1) && ParseInt(Response(q)[i].1) == Values(q)[i]
  {
    var vs := Values(q);
    assert InRange(vs[0]) && InRange(vs[1]) && InRange(vs[2]) && InRange(vs[3]) && InRange(vs[4]) && InRange(vs[5]);
    ParseDecimal(q.destinations);
    ParseDecimal(q.food);
    ParseDecimal(q.hotel);
    ParseDecimal(q.travel);
    ParseDecimal(q.tax);
    ParseDecimal(q.total);
  }

  /** Lines 64-69 as written: every product and sum is an `int` operation, so each step wraps. */
  function Figures(days: int, travelers: int, rooms: int, cuisineCost: int, hotelCost: int, travelCost: int, destTotal: int): Quote
  {
    var foodCost := Wrap(Wrap(Wrap(cuisineCost * 3) * days) * travelers);
    var hotelTotal := Wrap(Wrap(hotelCost * days) * rooms);
    var travelTotal := Wrap(travelCost * travelers);
    Finish(destTotal, foodCost, hotelTotal, travelTotal)
  }

  /** The total summed step by step in `int`, its tax, and the grand total. */
  function Finish(dest: int, food: int, hotel: int, travel: int): Quote
  {
    var total := Wrap(Wrap(Wrap(dest + food) + hotel) + travel);
    var tax := TruncatedTax(total);
    Quote(dest, food, hotel, travel, tax, Wrap(total + tax))
  }

  /** The handler's step-by-step `int` arithmetic equals the exact figures reduced to 32 bits. */
  lemma StepwiseIsReduced(r: Request, destTotal: int)
    requires destTotal == Wrap(Sum(r.destinations) * r.days)
    ensures Figures(r.days, r.travelers, r.rooms, r.cuisineCost, r.hotelCost, r.travelCost, destTotal) == Reduced(r)
  {
    var e := Exact(r);
    WrapProduct3(r.cuisineCost * 3, r.days, r.travelers);
    WrapProduct2(r.hotelCost, r.days, r.rooms);
    FinishReduces(e);
  }

  /** Summing the wrapped figures step by step gives the reduced quote. */
  lemma FinishReduces(e: Quote)
    ensures Finish(Wrap(e.destinations), Wrap(e.food), Wrap(e.hotel), Wrap(e.travel)) == ReduceQuote(e)
  {
    WrapSum4(e.destinations, e.food, e.hotel, e.travel);
  }

  /** Multiplying in two wrapped steps wraps to the exact product. */
  lemma WrapProduct2(a: int, b: int, c: int)
    ensures Wrap(Wrap(a * b) * c) == Wrap(a * b * c)
  {
    WrapMul(a * b, c);
  }

  /** Multiplying in three wrapped steps wraps to the exact product. */
  lemma WrapProduct3(a: int, b: int, c: int)
    ensures Wrap(Wrap(Wrap(a) * b) * c) == Wrap(a * b * c)
  {
    WrapMul(a, b);
    WrapMul(a * b, c);
  }

  /** Adding four wrapped figures step by step wraps to the exact sum. */
  lemma WrapSum4(a: int, b: int, c: int, d: int)
    ensures Wrap(Wrap(Wrap(Wrap(a) + Wrap(b)) + Wrap(c)) + Wrap(d)) == Wrap(a + b + c + d)
  {
    WrapAdd(a, Wrap(b));
    WrapAdd(b, a);
    WrapAdd(a + b, Wrap(c));
    WrapAdd(c, a + b);
    WrapAdd(a + b + c, Wrap(d));
    WrapAdd(d, a + b + c);
  }

  // ----- What the figures mean -----

  /** Without overflow the handler's figures are the exact ones, and the tax is a truncated twentieth. */
  lemma ExactWithoutOverflow(r: Request)
    requires var e := Exact(r);
      && InRange(e.destinations) && InRange(e.food) && InRange(e.hotel) && InRange(e.travel)
      && InRange(e.destinations + e.food + e.hotel + e.travel) && InRange(e.total)
    ensures Reduced(r) == Exact(r)
  {
  }

  /** For a non-negative subtotal the exact tax is `subtotal / 20` and the grand total is at least the subtotal. */
  lemma ExactTax(r: Request)
    requires var e := Exact(r); e.destinations + e.food + e.hotel + e.travel >= 0
    ensures var e := Exact(r); var subtotal := e.destinations + e.food + e.hotel + e.travel;
      e.tax == subtotal / 20 && e.total == subtotal + e.tax && e.total >= subtotal
  {
  }

  /** Missing keys take their defaults: one day, traveler and room, zero prices, no destinations. */
  lemma Defaults(data: map<string, string>)
    requires Readable(data)
    ensures "days" !in data ==> Decode(data).days == 1
    ensures "travelers" !in data ==> Decode(data).travelers == 1
    ensures "rooms" !in data ==> Decode(data).rooms == 1
    ensures "cuisineCost" !in data ==> Decode(data).cuisineCost == 0
    ensures "hotelCost" !in data ==> Decode(data).hotelCost == 0
    ensures "travelCost" !in data ==> Decode(data).travelCost == 0
    ensures "destinations" !in data ==> Decode(data).destinations == []
  {
    assert "1"[1..] == [] && "0"[1..] == [];
    assert ParseInt("1") == 1 && ParseInt("0") == 0;
  }

  /** The handler reads every present key from the body and falls back to its default only for a missing one. */
  lemma ReadsPresentKeys(data: map<string, string>)
    requires Readable(data)
    ensures "days" in data ==> Decode(data).days == ParseInt(data["days"])
    ensures "travelers" in data ==> Decode(data).travelers == ParseInt(data["travelers"])
    ensures "rooms" in data ==> Decode(data).rooms == ParseInt(data["rooms"])
    ensures "cuisineCost" in data ==> Decode(data).cuisineCost == ParseInt(data["cuisineCost"])
    ensures "hotelCost" in data ==> Decode(data).hotelCost == ParseInt(data["hotelCost"])
    ensures "travelCost" in data ==> Decode(data).travelCost == ParseInt(data["travelCost"])
    ensures "destinations" in data ==> Decode(data).destinations == DestinationValues(data["destinations"])
  {
  }

  /** No clamp to one: a body with `"days":"0"` prices destinations, food and lodging at nothing. */
  lemma ZeroDaysNotClamped(data: map<string, string>)
    requires Readable(data) && "days" in data && data["days"] == "0"
    ensures var r := Decode(data);
      r.days == 0 && Reduced(r).destinations == 0 && Reduced(r).food == 0 && Reduced(r).hotel == 0
  {
    assert "0"[1..] == [];
    assert ParseInt("0") == 0;
  }

  /**
   * Because `parseSimpleJSON` has already cut the body at every comma, the
   * destinations value never holds one: the handler's loop runs over a
   * single segment, so at most one destination price is ever counted.
   */
  lemma OneDestinationPrice(body: string)
    requires Readable(Parsed(body))
    ensures |Decode(Parsed(body)).destinations| <= 1
    ensures var destStr := GetOrDefault(Parsed(body), "destinations", "");
      destStr != [] ==> IsJavaInt(JavaTrim(destStr)) && Decode(Parsed(body)).destinations == [ParseInt(JavaTrim(destStr))]
  {
    var data := Parsed(body);
    var destStr := GetOrDefault(data, "destinations", "");
    if "destinations" in data {
      ParsedClean(body, "destinations");
    }
    assert ',' !in destStr;
    if destStr != [] {
      assert JavaSplit(destStr, ',') == [destStr];
      assert destStr in JavaSplit(destStr, ',');
    }
  }

  /** 30000 travelers in Business class: the exact travel cost exceeds `int` range and the reported one is negative. */
  lemma TravelOverflow()
    ensures var r := Request(1, 30000, 1, 0, 0, 90000, []);
      Exact(r).travel == 2700000000 && Reduced(r).travel == -1594967296
  {
  }
}
