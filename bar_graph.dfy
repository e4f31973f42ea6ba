/**
 * The data side of the grouped bar chart (BarGraph.js): the constructor cleans the
 * listings, takes the distinct neighbourhood groups, and builds one average-price row per
 * (group, room type) pair; `update` replaces the chart by a new one built from new data.
 */
module BarGraph {
  import opened Optional
  import opened Seqs
  import opened JsNumbers
  import opened Listings

  /** `con.margin`, in pixels. */
  datatype Margin = Margin(top: int, right: int, bottom: int, left: int)

  const ValidGroups: seq<string> := ["Bronx", "Brooklyn", "Manhattan", "Queens", "Staten Island"]

  /** The room types of the chart, in bar order. */
  const RoomTypes: seq<string> := ["Shared room", "Private room", "Entire home/apt"]

  /** A row of the cleaning map: group, room type and the `parseFloat` reading of the price. */
  datatype BarRow = BarRow(group: Option<string>, roomType: string, price: Option<real>)

  /** A row that passed the cleaning filter, so its group is a valid name and its price a number. */
  datatype CleanRow = CleanRow(group: string, roomType: string, price: real)

  /** An element of `avgData`. */
  datatype AvgRow = AvgRow(group: string, roomType: string, avgPrice: real)

  function ToBarRow(d: Listing): BarRow {
    BarRow(d.group, d.roomType, StrippedParseFloat(d.price))
  }

  /** The filter `d.price > 0 && validGroups.includes(d.neighbourhood_group)`. */
  predicate BarKept(r: BarRow) {
    r.price.Some? && r.price.value > 0.0 && r.group.Some? && r.group.value in ValidGroups
  }

  /** `cleaned`: the mapped rows that pass the filter, in input order. */
  function BarClean(data: seq<Listing>): (r: seq<CleanRow>)
    ensures forall i :: 0 <= i < |r| ==> r[i].price > 0.0 && r[i].group in ValidGroups
  {
    var kept := Filter(Map(ToBarRow, data), BarKept);
    assert forall i :: 0 <= i < |kept| ==> kept[i] in kept;
    seq(|kept|, i requires 0 <= i < |kept| => CleanRow(kept[i].group.value, kept[i].roomType, kept[i].price.value))
  }

  /** `groups`: the distinct groups of the cleaned rows, in order of first appearance. */
  function BarGroups(cleaned: seq<CleanRow>): (gs: seq<string>)
    ensures NoDuplicates(gs)
    ensures forall g :: g in gs <==> exists i :: 0 <= i < |cleaned| && cleaned[i].group == g
  {
    var all := Map((r: CleanRow) => r.group, cleaned);
    assert forall i :: 0 <= i < |cleaned| ==> all[i] == cleaned[i].group;
    Distinct(all)
  }

  predicate Matches(r: CleanRow, g: string, rt: string) {
    r.group == g && r.roomType == rt
  }

  /** The number of cleaned rows of group `g` and room type `rt`. */
  function Count(rows: seq<CleanRow>, g: string, rt: string): nat {
    if rows == [] then 0
    else Count(rows[..|rows| - 1], g, rt) + (if Matches(rows[|rows| - 1], g, rt) then 1 else 0)
  }

  /** The sum of their prices. */
  function Sum(rows: seq<CleanRow>, g: string, rt: string): real {
    if rows == [] then 0.0
    else Sum(rows[..|rows| - 1], g, rt) + (if Matches(rows[|rows| - 1], g, rt) then rows[|rows| - 1].price else 0.0)
  }

  /**
   * `mapRT.has(rt) ? mapRT.get(rt) : 0`: the `d3.mean` of the prices that `d3.rollups`
   * collected under `g` and `rt`, and 0 when it collected none.
   */
  function MeanPrice(rows: seq<CleanRow>, g: string, rt: string): (m: real)
    ensures Count(rows, g, rt) == 0 ==> m == 0.0
    ensures Count(rows, g, rt) > 0 ==> m * Count(rows, g, rt) as real == Sum(rows, g, rt)
  {
    if Count(rows, g, rt) == 0 then 0.0 else Sum(rows, g, rt) / Count(rows, g, rt) as real
  }

  /** The three rows the inner `forEach` pushes for group `g`. */
  function GroupRows(g: string, rows: seq<CleanRow>): seq<AvgRow> {
    Map((rt: string) => AvgRow(g, rt, MeanPrice(rows, g, rt)), RoomTypes)
  }

  /**
   * The rows the nested `forEach` pushes for the groups `gs`, in order; `d3.rollups` lists
   * its groups in order of first appearance, so for the chart `gs` is `groups`.
   */
  function RollupRows(gs: seq<string>, rows: seq<CleanRow>): seq<AvgRow> {
    if gs == [] then [] else RollupRows(gs[..|gs| - 1], rows) + GroupRows(gs[|gs| - 1], rows)
  }

  function AvgData(cleaned: seq<CleanRow>): (r: seq<AvgRow>)
    ensures |r| == 3 * |BarGroups(cleaned)|
    ensures forall k :: 0 <= k < |r| ==>
      r[k].group == BarGroups(cleaned)[k / 3] && r[k].roomType == RoomTypes[k % 3]
  {
    RollupShape(BarGroups(cleaned), cleaned);
    RollupRows(BarGroups(cleaned), cleaned)
  }

  /** The inner size the constructor computes: it subtracts the left and right margins from both dimensions. */
  function InnerWidth(w: int, m: Margin): int {
    w - m.left - m.right
  }

  function InnerHeight(h: int, m: Margin): int {
    h - m.left - m.right
  }

  /** The outer size `update` passes to the new chart. */
  function OuterWidth(innerWidth: int, m: Margin): int {
    innerWidth + m.left + m.right
  }

  function OuterHeight(innerHeight: int, m: Margin): int {
    innerHeight + m.top + m.bottom
  }

  /** The nested loops of the constructor that fill `avgData`. */
  method BuildAvgData(cleaned: seq<CleanRow>) returns (avgData: seq<AvgRow>)
    ensures avgData == AvgData(cleaned)
  {
    var groups := BarGroups(cleaned);
    avgData := [];
    var i := 0;
    while i < |groups|
      invariant 0 <= i <= |groups|
      invariant avgData == RollupRows(groups[..i], cleaned)
    {
      var g := groups[i];
      var j := 0;
      while j < |RoomTypes|
        invariant 0 <= j <= |RoomTypes|
        invariant avgData == RollupRows(groups[..i], cleaned) + GroupRows(g, cleaned)[..j]
      {
        var rt := RoomTypes[j];
        avgData := avgData + [AvgRow(g, rt, MeanPrice(cleaned, g, rt))];
        j := j + 1;
      }
      assert groups[..i + 1][..i] == groups[..i];
      i := i + 1;
    }
    assert groups[..i] == groups;
  }

  // ----- properties -----

  /** A listing whose price reads as a positive number and whose group is one of the five reaches `cleaned`. */
  lemma BarKeeps(data: seq<Listing>, d: Listing)
    requires d in data
    requires StrippedParseFloat(d.price).Some? && StrippedParseFloat(d.price).value > 0.0
    requires d.group.Some? && d.group.value in ValidGroups
    ensures CleanRow(d.group.value, d.roomType, StrippedParseFloat(d.price).value) in BarClean(data)
  {
    var k :| 0 <= k < |data| && data[k] == d;
    var mapped := Map(ToBarRow, data);
    assert mapped[k] == ToBarRow(d) && ToBarRow(d) in mapped;
    var kept := Filter(mapped, BarKept);
    var i :| 0 <= i < |kept| && kept[i] == ToBarRow(d);
    assert BarClean(data)[i] == CleanRow(d.group.value, d.roomType, StrippedParseFloat(d.price).value);
  }

  /** Every cleaned row comes from a listing of the input that passes the filter. */
  lemma BarCleanFromInput(data: seq<Listing>, i: nat)
    requires i < |BarClean(data)|
    ensures exists d :: (d in data && BarKept(ToBarRow(d)) &&
      BarClean(data)[i] == CleanRow(d.group.value, d.roomType, StrippedParseFloat(d.price).value))
  {
    var mapped := Map(ToBarRow, data);
    var kept := Filter(mapped, BarKept);
    assert kept[i] in kept;
    var k :| 0 <= k < |mapped| && mapped[k] == kept[i];
    assert data[k] in data;
  }

  lemma {:induction false} SumOfPositive(rows: seq<CleanRow>, g: string, rt: string)
    requires forall i :: 0 <= i < |rows| ==> rows[i].price > 0.0
    ensures Sum(rows, g, rt) >= 0.0
    ensures Sum(rows, g, rt) > 0.0 <==> Count(rows, g, rt) > 0
  {
    if rows != [] {
      SumOfPositive(rows[..|rows| - 1], g, rt);
    }
  }

  lemma {:induction false} CountPositive(rows: seq<CleanRow>, g: string, rt: string)
    ensures Count(rows, g, rt) > 0 <==> exists i :: 0 <= i < |rows| && Matches(rows[i], g, rt)
  {
    if rows != [] {
      var init := rows[..|rows| - 1];
      CountPositive(init, g, rt);
      assert forall i :: 0 <= i < |init| ==> init[i] == rows[i];
    }
  }

  lemma {:induction false} SumBounds(rows: seq<CleanRow>, g: string, rt: string, lo: real, hi: real)
    requires forall i :: 0 <= i < |rows| && Matches(rows[i], g, rt) ==> lo <= rows[i].price <= hi
    ensures Count(rows, g, rt) as real * lo <= Sum(rows, g, rt) <= Count(rows, g, rt) as real * hi
  {
    if rows != [] {
      SumBounds(rows[..|rows| - 1], g, rt, lo, hi);
    }
  }

  /** An average price is positive exactly when some cleaned row has that group and room type, and 0 otherwise. */
  lemma MeanPricePositive(rows: seq<CleanRow>, g: string, rt: string)
    requires forall i :: 0 <= i < |rows| ==> rows[i].price > 0.0
    ensures MeanPrice(rows, g, rt) >= 0.0
    ensures MeanPrice(rows, g, rt) > 0.0 <==> exists i :: 0 <= i < |rows| && Matches(rows[i], g, rt)
  {
    SumOfPositive(rows, g, rt);
    CountPositive(rows, g, rt);
  }

  /** An average price lies between the least and the greatest price it averages. */
  lemma MeanPriceWithin(rows: seq<CleanRow>, g: string, rt: string, lo: real, hi: real)
    requires forall i :: 0 <= i < |rows| && Matches(rows[i], g, rt) ==> lo <= rows[i].price <= hi
    requires Count(rows, g, rt) > 0
    ensures lo <= MeanPrice(rows, g, rt) <= hi
  {
    SumBounds(rows, g, rt, lo, hi);
    QuotientBounds(Sum(rows, g, rt), Count(rows, g, rt) as real, lo, hi);
  }

  lemma QuotientBounds(s: real, n: real, lo: real, hi: real)
    requires n > 0.0 && n * lo <= s <= n * hi
    ensures lo <= s / n <= hi
  {
    var q := s / n;
    assert q * n == s;
    assert (q - lo) * n >= 0.0 && (hi - q) * n >= 0.0;
  }

  /**
   * `avgData` holds three rows per group, in the order of `groups` and, within a group, in
   * the order Shared room, Private room, Entire home/apt; each row carries that pair's mean.
   */
  lemma {:induction false} RollupShape(gs: seq<string>, rows: seq<CleanRow>)
    ensures |RollupRows(gs, rows)| == 3 * |gs|
    ensures forall k :: 0 <= k < |RollupRows(gs, rows)| ==>
      RollupRows(gs, rows)[k] == AvgRow(gs[k / 3], RoomTypes[k % 3], MeanPrice(rows, gs[k / 3], RoomTypes[k % 3]))
  {
    if gs != [] {
      var init := gs[..|gs| - 1];
      RollupShape(init, rows);
      var r := RollupRows(gs, rows);
      forall k | 0 <= k < |r|
        ensures r[k] == AvgRow(gs[k / 3], RoomTypes[k % 3], MeanPrice(rows, gs[k / 3], RoomTypes[k % 3]))
      {
        if k < 3 * |init| {
          assert k / 3 < |init|;
        } else {
          assert k / 3 == |gs| - 1 && k % 3 == k - 3 * |init|;
        }
      }
    }
  }

  lemma {:induction false} NoDuplicatesCard<T>(s: seq<T>)
    requires NoDuplicates(s)
    ensures |set x | x in s| == |s|
  {
    if s != [] {
      var init := s[..|s| - 1];
      NoDuplicatesCard(init);
      assert (set x | x in s) == (set x | x in init) + {s[|s| - 1]};
      assert s[|s| - 1] !in init;
    }
  }

  lemma {:induction false} SubsetCard<T>(a: set<T>, b: set<T>)
    requires a <= b
    ensures |a| <= |b|
    ensures |a| == |b| ==> a == b
  {
    if a != {} {
      var x :| x in a;
      SubsetCard(a - {x}, b - {x});
    }
  }

  /**
   * The chart has at most five groups, all valid, so at most 15 rows; it has exactly 15
   * rows iff every one of the five groups survives cleaning.
   */
  lemma AvgDataCount(data: seq<Listing>)
    ensures var cleaned := BarClean(data);
      |AvgData(cleaned)| == 3 * |BarGroups(cleaned)| <= 15 &&
      (|AvgData(cleaned)| == 15 <==> forall g :: g in ValidGroups ==> g in BarGroups(cleaned))
  {
    var cleaned := BarClean(data);
    var groups := BarGroups(cleaned);
    RollupShape(groups, cleaned);
    var present := set x | x in groups;
    var valid := set x | x in ValidGroups;
    assert present <= valid by {
      forall x | x in present
        ensures x in valid
      {
        var i :| 0 <= i < |Map((r: CleanRow) => r.group, cleaned)| && Map((r: CleanRow) => r.group, cleaned)[i] == x;
      }
    }
    NoDuplicatesCard(groups);
    assert NoDuplicates(ValidGroups);
    NoDuplicatesCard(ValidGroups);
    SubsetCard(present, valid);
    if |groups| == 5 {
      assert present == valid;
      forall g | g in ValidGroups
        ensures g in groups
      {
        assert g in valid;
      }
    }
    if forall g :: g in ValidGroups ==> g in groups {
      assert valid <= present;
      SubsetCard(valid, present);
    }
  }

  /** `update` recreates the chart with the same inner width; the inner height is kept iff top+bottom equals left+right. */
  lemma SizeRoundTrip(innerWidth: int, innerHeight: int, m: Margin)
    ensures InnerWidth(OuterWidth(innerWidth, m), m) == innerWidth
    ensures InnerHeight(OuterHeight(innerHeight, m), m) == innerHeight <==> m.top + m.bottom == m.left + m.right
  {
  }

  class BarChart {
    const margin: Margin
    /** `size.width` and `size.height`, the inner size of the chart. */
    const width: int
    const height: int
    const groups: seq<string>
    const avgData: seq<AvgRow>

    constructor (data: seq<Listing>, w: int, h: int, m: Margin)
      ensures margin == m && width == InnerWidth(w, m) && height == InnerHeight(h, m)
      ensures groups == BarGroups(BarClean(data)) && avgData == AvgData(BarClean(data))
    {
      margin := m;
      width := w - m.left - m.right;
      height := h - m.left - m.right;
      var cleaned := BarClean(data);
      groups := BarGroups(cleaned);
      var rows := BuildAvgData(cleaned);
      avgData := rows;
    }

    /** `update`: remove the chart container and build a new chart, passing its outer size back. */
    method Update(newData: seq<Listing>) returns (chart: BarChart)
      ensures fresh(chart) && chart.margin == margin
      ensures chart.width == width
      ensures chart.height == height + (margin.top + margin.bottom) - (margin.left + margin.right)
      ensures chart.groups == BarGroups(BarClean(newData)) && chart.avgData == AvgData(BarClean(newData))
    {
      chart := new BarChart(newData, OuterWidth(width, margin), OuterHeight(height, margin), margin);
    }
  }
}
