/**
 * The data side of the price heat map (heatMap.js): `plotData` parses the listings, keeps
 * the rows whose coordinates and price are truthy, sorts them in place by price and draws
 * one circle per row, with a radius chosen by price; `update` clears the data layer and
 * plots again.
 */
module HeatMapPlot {
  import opened Optional
  import opened Seqs
  import opened JsNumbers
  import opened Listings

  /** A parsed row of `plotData`; the price uses the digits, `.` and `-` rule with unary `+`. */
  datatype HeatRow = HeatRow(
    lat: Option<real>,
    long: Option<real>,
    price: Option<real>,
    group: Option<string>,
    roomType: string)

  /** A circle of the data layer: the row bound to it and its radius attribute. */
  datatype Circle = Circle(row: HeatRow, radius: int)

  function ParseRow(d: Listing): (r: HeatRow)
    ensures r.lat == d.lat && r.long == d.long && r.group == d.group && r.roomType == d.roomType
    ensures r.price.Some? && r.price.value < 0.0 ==> '-' in d.price
  {
    HeatRow(d.lat, d.long, StrippedToNumber(d.price), d.group, d.roomType)
  }

  /** JavaScript truthiness of a number: neither 0 nor NaN. */
  predicate Truthy(x: Option<real>) {
    x.Some? && x.value != 0.0
  }

  /** The filter `d.lat && d.long && d.price`. */
  predicate Kept(r: HeatRow) {
    Truthy(r.lat) && Truthy(r.long) && Truthy(r.price)
  }

  function KeptRows(data: seq<Listing>): (r: seq<HeatRow>)
    ensures forall i :: 0 <= i < |r| ==> Kept(r[i])
  {
    Filter(Map(ParseRow, data), Kept)
  }

  /** The sort key `d.price`. Every kept row has a price, so the 0 is never consulted. */
  function Price(r: HeatRow): real {
    if r.price.Some? then r.price.value else 0.0
  }

  predicate SortedByPrice(s: seq<HeatRow>) {
    forall i, j :: 0 <= i < j < |s| ==> Price(s[i]) <= Price(s[j])
  }

  /** Insert `x` after every row of `s` whose price is not greater than its own. */
  function InsertByPrice(s: seq<HeatRow>, x: HeatRow): (r: seq<HeatRow>)
    ensures |r| == |s| + 1
  {
    if s == [] || Price(s[|s| - 1]) <= Price(x) then s + [x]
    else InsertByPrice(s[..|s| - 1], x) + [s[|s| - 1]]
  }

  /**
   * `parsedData.sort((a, b) => a.price - b.price)`: `Array.prototype.sort` is stable
   * (ECMA-262 section 23.1.3.30), so this is the stable ascending sort by price.
   */
  function StableSortByPrice(s: seq<HeatRow>): (r: seq<HeatRow>)
    ensures |r| == |s|
  {
    if s == [] then []
    else InsertByPrice(StableSortByPrice(s[..|s| - 1]), s[|s| - 1])
  }

  /** The rows of `s` whose price is `v`, in their order in `s`. */
  function WithPrice(s: seq<HeatRow>, v: real): seq<HeatRow> {
    if s == [] then []
    else WithPrice(s[..|s| - 1], v) + (if Price(s[|s| - 1]) == v then [s[|s| - 1]] else [])
  }

  /** The radius attribute: 4 up to a price of 600, 2 above. */
  function Radius(price: real): (r: int)
    ensures r == 4 <==> price <= 600.0
    ensures r == 2 <==> price > 600.0
  {
    if price <= 600.0 then 4
    else if price <= 1200.0 then 2
    else 2
  }

  /** The rows `plotData` draws, in drawing order. */
  function Plotted(data: seq<Listing>): (r: seq<HeatRow>)
    ensures SortedByPrice(r)
    ensures forall i :: 0 <= i < |r| ==> Kept(r[i])
  {
    var kept := KeptRows(data);
    var r := StableSortByPrice(kept);
    StableSortCorrect(kept);
    assert forall i :: 0 <= i < |r| ==> r[i] in multiset(kept);
    r
  }

  function Circles(rows: seq<HeatRow>): seq<Circle> {
    Map((r: HeatRow) => Circle(r, Radius(Price(r))), rows)
  }

  // ----- properties -----

  /** A listing of the input is kept iff its latitude, longitude and price are all truthy. */
  lemma HeatKeeps(data: seq<Listing>, d: Listing)
    requires d in data
    ensures ParseRow(d) in KeptRows(data) <==>
      Truthy(d.lat) && Truthy(d.long) && Truthy(StrippedToNumber(d.price))
  {
    var k :| 0 <= k < |data| && data[k] == d;
    assert Map(ParseRow, data)[k] == ParseRow(d);
  }

  /** A negative price such as `"-5"` survives the parse and the filter as a negative number. */
  lemma NegativePriceKept(d: Listing)
    requires d.price == "-5" && Truthy(d.lat) && Truthy(d.long)
    ensures Kept(ParseRow(d)) && Price(ParseRow(d)) == -5.0
  {
    MinusReading(d.price);
  }

  /** Every plotted row is the parsed form of a listing of the input: its group and room type are unchanged. */
  lemma PlottedFromInput(data: seq<Listing>)
    ensures forall r :: r in Plotted(data) ==> Kept(r) && exists d :: d in data && r == ParseRow(d)
  {
    var kept := KeptRows(data);
    StableSortCorrect(kept);
    forall r | r in Plotted(data)
      ensures Kept(r) && exists d :: d in data && r == ParseRow(d)
    {
      assert r in multiset(Plotted(data));
      assert r in kept;
      var k :| 0 <= k < |Map(ParseRow, data)| && Map(ParseRow, data)[k] == r;
      assert data[k] in data;
    }
  }

  lemma {:induction false} InsertPermutes(s: seq<HeatRow>, x: HeatRow)
    ensures multiset(InsertByPrice(s, x)) == multiset(s) + multiset{x}
  {
    if s != [] && Price(s[|s| - 1]) > Price(x) {
      InsertPermutes(s[..|s| - 1], x);
      assert s == s[..|s| - 1] + [s[|s| - 1]];
    }
  }

  lemma {:induction false} InsertSorted(s: seq<HeatRow>, x: HeatRow)
    requires SortedByPrice(s)
    ensures SortedByPrice(InsertByPrice(s, x))
  {
    if s != [] && Price(s[|s| - 1]) > Price(x) {
      var init, last := s[..|s| - 1], s[|s| - 1];
      assert s == init + [last];
      InsertSorted(init, x);
      assert forall k :: 0 <= k < |init| ==> Price(init[k]) <= Price(last);
      InsertBelow(init, x, last);
      SortedSnoc(InsertByPrice(init, x), last);
    }
  }

  /** Inserting a row below `bound` into rows below `bound` leaves every row below it. */
  lemma InsertBelow(s: seq<HeatRow>, x: HeatRow, bound: HeatRow)
    requires forall k :: 0 <= k < |s| ==> Price(s[k]) <= Price(bound)
    requires Price(x) <= Price(bound)
    ensures forall i :: 0 <= i < |InsertByPrice(s, x)| ==> Price(InsertByPrice(s, x)[i]) <= Price(bound)
  {
    var r := InsertByPrice(s, x);
    InsertPermutes(s, x);
    forall i | 0 <= i < |r|
      ensures Price(r[i]) <= Price(bound)
    {
      assert r[i] in multiset(r);
      if r[i] != x {
        assert r[i] in multiset(s);
        var k :| 0 <= k < |s| && s[k] == r[i];
      }
    }
  }

  /** Appending a row no cheaper than every row keeps the rows sorted. */
  lemma SortedSnoc(s: seq<HeatRow>, last: HeatRow)
    requires SortedByPrice(s)
    requires forall k :: 0 <= k < |s| ==> Price(s[k]) <= Price(last)
    ensures SortedByPrice(s + [last])
  {
    var t := s + [last];
    forall i, j | 0 <= i < j < |t|
      ensures Price(t[i]) <= Price(t[j])
    {
      assert t[i] == s[i];
    }
  }

  lemma {:induction false} WithPriceAppend(a: seq<HeatRow>, b: seq<HeatRow>, v: real)
    ensures WithPrice(a + b, v) == WithPrice(a, v) + WithPrice(b, v)
    decreases |b|
  {
    if b == [] {
      assert a + b == a;
    } else {
      assert (a + b)[..|a + b| - 1] == a + b[..|b| - 1];
      assert (a + b)[|a + b| - 1] == b[|b| - 1];
      WithPriceAppend(a, b[..|b| - 1], v);
    }
  }

  lemma {:induction false} InsertStable(s: seq<HeatRow>, x: HeatRow, v: real)
    ensures WithPrice(InsertByPrice(s, x), v) == WithPrice(s, v) + WithPrice([x], v)
  {
    if s == [] || Price(s[|s| - 1]) <= Price(x) {
      WithPriceAppend(s, [x], v);
    } else {
      var init, last := s[..|s| - 1], s[|s| - 1];
      assert s == init + [last];
      InsertStable(init, x, v);
      assert InsertByPrice(s, x) == InsertByPrice(init, x) + [last];
      WithPriceAppend(InsertByPrice(init, x), [last], v);
      WithPriceAppend(init, [last], v);
      var a, b, c := WithPrice(init, v), WithPrice([x], v), WithPrice([last], v);
      assert b == [] || c == [] by {
        assert [x][..0] == [] && [last][..0] == [];
      }
      assert WithPrice(InsertByPrice(s, x), v) == a + b + c;
      assert WithPrice(s, v) + b == a + c + b;
    }
  }

  /**
   * The heat map's sort orders the kept rows by price, loses and adds none, and keeps rows
   * of equal price in their input order.
   */
  lemma {:induction false} StableSortCorrect(s: seq<HeatRow>)
    ensures SortedByPrice(StableSortByPrice(s))
    ensures multiset(StableSortByPrice(s)) == multiset(s)
    ensures forall v :: WithPrice(StableSortByPrice(s), v) == WithPrice(s, v)
  {
    if s != [] {
      var init, last := s[..|s| - 1], s[|s| - 1];
      StableSortCorrect(init);
      InsertSorted(StableSortByPrice(init), last);
      InsertPermutes(StableSortByPrice(init), last);
      assert s == init + [last];
      forall v
        ensures WithPrice(StableSortByPrice(s), v) == WithPrice(s, v)
      {
        InsertStable(StableSortByPrice(init), last, v);
        assert [last][..0] == [];
        WithPriceAppend(init, [last], v);
      }
    }
  }

  /** Drawn in ascending price order, the circles' radii never grow. */
  lemma PlottedRadii(data: seq<Listing>)
    ensures forall i, j :: 0 <= i < j < |Circles(Plotted(data))| ==>
      Circles(Plotted(data))[j].radius <= Circles(Plotted(data))[i].radius
  {
    StableSortCorrect(KeptRows(data));
  }

  /** Inserting `x` puts it right after the last row whose price does not exceed its own. */
  lemma {:induction false} InsertSplit(s: seq<HeatRow>, x: HeatRow, j: nat)
    requires j <= |s|
    requires j == 0 || Price(s[j - 1]) <= Price(x)
    requires forall k :: j <= k < |s| ==> Price(s[k]) > Price(x)
    ensures InsertByPrice(s, x) == s[..j] + [x] + s[j..]
    decreases |s|
  {
    if j < |s| {
      var init, last := s[..|s| - 1], s[|s| - 1];
      assert InsertByPrice(s, x) == InsertByPrice(init, x) + [last] by {
        assert Price(last) > Price(x);
      }
      assert forall k :: j <= k < |init| ==> Price(init[k]) > Price(x) by {
        assert forall k :: j <= k < |init| ==> init[k] == s[k];
      }
      InsertSplit(init, x, j);
      assert init[..j] + [x] + init[j..] + [last] == s[..j] + [x] + s[j..] by {
        assert init[..j] == s[..j];
        assert s[j..] == init[j..] + [last];
      }
    } else {
      assert s[..j] == s;
    }
  }

  /** One step of the insertion sort: slide `a[i]` left past the larger prices before it. */
  method InsertInPlace(a: array<HeatRow>, i: nat)
    requires i < a.Length
    modifies a
    ensures a[..i + 1] == InsertByPrice(old(a[..i]), old(a[i]))
    ensures a[i + 1..] == old(a[i + 1..])
  {
    ghost var sorted := a[..i];
    var x := a[i];
    var j := i;
    while j > 0 && Price(a[j - 1]) > Price(x)
      invariant 0 <= j <= i
      invariant forall k :: 0 <= k < j ==> a[k] == sorted[k]
      invariant forall k :: j < k <= i ==> a[k] == sorted[k - 1]
      invariant forall k :: j <= k < i ==> Price(sorted[k]) > Price(x)
      invariant forall k :: i < k < a.Length ==> a[k] == old(a[k])
    {
      a[j] := a[j - 1];
      j := j - 1;
    }
    a[j] := x;
    InsertSplit(sorted, x, j);
    Shifted(a[..i + 1], sorted, x, j);
    assert a[i + 1..] == old(a[i + 1..]);
  }

  /** A row sequence that is `s` with `x` slotted in at `j` is `s[..j] + [x] + s[j..]`. */
  lemma Shifted(t: seq<HeatRow>, s: seq<HeatRow>, x: HeatRow, j: nat)
    requires |t| == |s| + 1 && j <= |s|
    requires forall k :: 0 <= k < j ==> t[k] == s[k]
    requires t[j] == x
    requires forall k :: j < k < |t| ==> t[k] == s[k - 1]
    ensures t == s[..j] + [x] + s[j..]
  {
    var r := s[..j] + [x] + s[j..];
    forall k | 0 <= k < |t|
      ensures t[k] == r[k]
    {
      if k < j {
        assert r[k] == s[k];
      } else if k > j {
        assert r[k] == s[k - 1];
      }
    }
  }

  /** The sort of `plotData`, an insertion sort run in place on the parsed array. */
  method SortByPrice(a: array<HeatRow>)
    modifies a
    ensures a[..] == StableSortByPrice(old(a[..]))
  {
    ghost var input := a[..];
    var i := 0;
    while i < a.Length
      invariant 0 <= i <= a.Length
      invariant a[..i] == StableSortByPrice(input[..i])
      invariant a[i..] == input[i..]
    {
      InsertInPlace(a, i);
      assert input[..i + 1][..i] == input[..i];
      i := i + 1;
    }
    assert input[..a.Length] == input;
  }

  /** The rows `plotData` binds: the kept rows, copied into an array and sorted there by price. */
  method PlotRows(input: seq<Listing>) returns (rows: seq<HeatRow>)
    ensures rows == Plotted(input)
  {
    var kept := KeptRows(input);
    var parsed := new HeatRow[|kept|](i requires 0 <= i < |kept| => kept[i]);
    assert parsed[..] == kept;
    SortByPrice(parsed);
    rows := parsed[..];
  }

  class HeatMap {
    const width: int
    const height: int
    /** The circles of the data layer, in drawing order. */
    var circles: seq<Circle>
    /** How often the borough map has been requested and drawn into the map layer. */
    var mapDraws: nat
    /** How often the legend has been drawn. */
    var legendDraws: nat

    constructor (w: int, h: int, data: seq<Listing>)
      ensures width == w && height == h
      ensures circles == Circles(Plotted(data))
      ensures mapDraws == 1 && legendDraws == 1
    {
      width, height := w, h;
      circles, mapDraws, legendDraws := [], 0, 0;
      new;
      Render(data);
    }

    /**
     * `plotData`: parse, filter, sort in place and bind the rows to the layer's circles.
     * D3's data join appends circles only for the rows beyond the circles already drawn.
     */
    method PlotData(input: seq<Listing>)
      modifies this`circles
      ensures var plotted := Circles(Plotted(input));
        circles == if |old(circles)| < |plotted| then old(circles) + plotted[|old(circles)|..] else old(circles)
      ensures old(circles) == [] ==> circles == Circles(Plotted(input))
    {
      var rows := PlotRows(input);
      var plotted := Circles(rows);
      if |circles| < |plotted| {
        circles := circles + plotted[|circles|..];
      }
      assert old(circles) == [] ==> circles == plotted;
    }

    /** `render`: draw the map, plot the data, draw the legend. */
    method Render(input: seq<Listing>)
      requires circles == []
      modifies this`circles, this`mapDraws, this`legendDraws
      ensures circles == Circles(Plotted(input))
      ensures mapDraws == old(mapDraws) + 1 && legendDraws == old(legendDraws) + 1
    {
      mapDraws := mapDraws + 1;
      PlotData(input);
      legendDraws := legendDraws + 1;
    }

    /** `update`: remove the data layer's circles and plot the new data; map and legend stay. */
    method Update(newData: seq<Listing>)
      modifies this`circles
      ensures circles == Circles(Plotted(newData))
      ensures mapDraws == old(mapDraws) && legendDraws == old(legendDraws)
    {
      circles := [];
      PlotData(newData);
    }
  }
}
