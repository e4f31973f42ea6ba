/**
 * The dashboard's controller (control.js): the correction pass over the neighbourhood
 * groups, the list of group checkboxes, the gathering of the checked boxes, the
 * recomputation of `filteredData` and its fan-out to the three views.
 */
module Dashboard {
  import opened Optional
  import opened Seqs
  import opened JsStrings
  import opened JsNumbers
  import opened Listings
  import opened ScatterPlot
  import opened HeatMapPlot
  import opened BarGraph

  // ----- the correction pass of createCombinedFilters -----

  /** The table of misspelt groups, keyed by the trimmed group. */
  const Corrections: map<string, string> := map["manhatan" := "Manhattan", "brookln" := "Brooklyn", "" := "Unknown"]

  /** The new group of one record: looked up by its trimmed value; a missing group or a
      value that is not a key is left exactly as it was (untrimmed). */
  function CorrectGroup(g: Option<string>): (r: Option<string>)
    ensures r.None? <==> g.None?
    ensures r != g ==> r == Some("Manhattan") || r == Some("Brooklyn") || r == Some("Unknown")
  {
    if g.Some? && Trim(g.value) in Corrections then Some(Corrections[Trim(g.value)]) else g
  }

  function CorrectRecord(d: Listing): Listing {
    d.(group := CorrectGroup(d.group))
  }

  /** The records after the pass, which control.js performs in place. */
  function CorrectAll(data: seq<Listing>): seq<Listing> {
    Map(CorrectRecord, data)
  }

  /** The three corrections, and nothing else is ever changed. */
  lemma CorrectGroupTable(g: Option<string>)
    ensures g.Some? && Trim(g.value) == "manhatan" ==> CorrectGroup(g) == Some("Manhattan")
    ensures g.Some? && Trim(g.value) == "brookln" ==> CorrectGroup(g) == Some("Brooklyn")
    ensures g.Some? && Trim(g.value) == "" ==> CorrectGroup(g) == Some("Unknown")
    ensures CorrectGroup(g) != g ==>
      g.Some? && (Trim(g.value) == "manhatan" || Trim(g.value) == "brookln" || Trim(g.value) == "")
  {
    if g.Some? {
      var k := Trim(g.value);
      assert k in Corrections <==> k == "manhatan" || k == "brookln" || k == "";
      assert k in Corrections ==> CorrectGroup(g) == Some(Corrections[k]);
    }
  }

  /** No corrected value is itself a key of the table, so a second pass changes nothing. */
  lemma CorrectGroupIdempotent(g: Option<string>)
    ensures CorrectGroup(CorrectGroup(g)) == CorrectGroup(g)
  {
    var c := CorrectGroup(g);
    if c != g {
      var v := c.value;
      assert v[0] == 'M' || v[0] == 'B' || v[0] == 'U';
      assert v[|v| - 1] == 'n';
      CorrectedIsNoKey(v);
    }
  }

  /** A name starting with a capital M, B or U and ending in n, as the three corrected
      names do, is its own trimmed form and is not a key of the table. */
  lemma CorrectedIsNoKey(v: string)
    requires v != [] && (v[0] == 'M' || v[0] == 'B' || v[0] == 'U') && v[|v| - 1] == 'n'
    ensures Trim(v) == v && v !in Corrections
  {
    assert "manhatan"[0] == 'm' && "brookln"[0] == 'b';
  }

  /** The pass keeps every record in place and changes only its group. */
  lemma CorrectAllOnlyGroups(data: seq<Listing>, i: nat)
    requires i < |data|
    ensures |CorrectAll(data)| == |data|
    ensures CorrectAll(data)[i].(group := data[i].group) == data[i]
    ensures CorrectAll(data)[i].group == CorrectGroup(data[i].group)
  {
    assert CorrectAll(data)[i] == CorrectRecord(data[i]);
  }

  /** Running the pass twice gives the records of running it once. */
  lemma CorrectAllIdempotent(data: seq<Listing>)
    ensures CorrectAll(CorrectAll(data)) == CorrectAll(data)
  {
    var once := CorrectAll(data);
    forall i | 0 <= i < |data|
      ensures CorrectAll(once)[i] == once[i]
    {
      var d := data[i];
      assert once[i] == CorrectRecord(d);
      assert CorrectAll(once)[i] == CorrectRecord(once[i]);
      CorrectGroupIdempotent(d.group);
      assert CorrectRecord(CorrectRecord(d)) == CorrectRecord(d);
    }
  }

  // ----- the group checkboxes -----

  function GroupOf(d: Listing): Option<string> {
    d.group
  }

  /** The filter `group && group !== "Unknown"`: present, non-empty and not "Unknown". */
  predicate IsCheckboxGroup(g: Option<string>) {
    g.Some? && g.value != "" && g.value != "Unknown"
  }

  /** The groups that pass the filter, unwrapped, in their order. */
  function Candidates(gs: seq<Option<string>>): (r: seq<string>)
    ensures forall s :: s in r <==> Some(s) in gs && IsCheckboxGroup(Some(s))
  {
    if gs == [] then []
    else (if IsCheckboxGroup(gs[0]) then [gs[0].value] else []) + Candidates(gs[1..])
  }

  lemma {:induction false} CandidatesDistinct(gs: seq<Option<string>>)
    requires NoDuplicates(gs)
    ensures NoDuplicates(Candidates(gs))
  {
    if gs != [] {
      CandidatesDistinct(gs[1..]);
      if IsCheckboxGroup(gs[0]) {
        assert gs[0] !in gs[1..];
        assert gs[0].value !in Candidates(gs[1..]);
      }
    }
  }

  /** Strictly ascending in the order of the default `sort`. */
  predicate StrictlySorted(s: seq<string>) {
    forall i, j :: 0 <= i < j < |s| ==> CodeUnitLess(s[i], s[j])
  }

  /** One step of an insertion sort by code units. */
  function InsertString(s: seq<string>, x: string): (r: seq<string>)
    ensures |r| == |s| + 1
    ensures forall y :: y in r <==> y == x || y in s
    ensures multiset(r) == multiset(s) + multiset{x}
  {
    if s == [] || CodeUnitLess(x, s[0]) then [x] + s
    else
      assert s == [s[0]] + s[1..];
      [s[0]] + InsertString(s[1..], x)
  }

  /** `.sort()` on strings; for a duplicate-free list its result is the one of any sort. */
  function SortStrings(s: seq<string>): (r: seq<string>)
    ensures |r| == |s|
    ensures forall y :: y in r <==> y in s
    ensures multiset(r) == multiset(s)
  {
    assert s != [] ==> s == [s[0]] + s[1..];
    if s == [] then [] else InsertString(SortStrings(s[1..]), s[0])
  }

  lemma {:induction false} InsertStringSorted(s: seq<string>, x: string)
    requires StrictlySorted(s) && x !in s
    ensures StrictlySorted(InsertString(s, x))
  {
    var r := InsertString(s, x);
    if s == [] {
    } else if CodeUnitLess(x, s[0]) {
      forall j | 1 <= j < |r|
        ensures CodeUnitLess(x, r[j])
      {
        if j > 1 {
          CodeUnitLessTransitive(x, s[0], s[j - 1]);
        }
      }
    } else {
      CodeUnitLessTotal(x, s[0]);
      assert s[0] != x;
      assert CodeUnitLess(s[0], x);
      InsertStringSorted(s[1..], x);
      var t := InsertString(s[1..], x);
      assert r == [s[0]] + t;
      forall j | 0 <= j < |t|
        ensures CodeUnitLess(s[0], t[j])
      {
        assert t[j] in t;
        if t[j] != x {
          var k :| 0 <= k < |s[1..]| && s[1..][k] == t[j];
          assert s[k + 1] == t[j];
        }
      }
    }
  }

  lemma {:induction false} SortStringsSorted(s: seq<string>)
    requires NoDuplicates(s)
    ensures StrictlySorted(SortStrings(s))
  {
    if s != [] {
      SortStringsSorted(s[1..]);
      assert s[0] !in s[1..];
      InsertStringSorted(SortStrings(s[1..]), s[0]);
    }
  }

  /** Two strictly sorted lists with the same elements are the same list. */
  lemma {:induction false} StrictlySortedUnique(a: seq<string>, b: seq<string>)
    requires StrictlySorted(a) && StrictlySorted(b)
    requires forall y :: y in a <==> y in b
    ensures a == b
  {
    assert a != [] ==> a[0] in a && a[0] in b;
    assert b != [] ==> b[0] in b && b[0] in a;
    if a != [] && b != [] {
      if a[0] != b[0] {
        var i :| 0 <= i < |b| && b[i] == a[0];
        var j :| 0 <= j < |a| && a[j] == b[0];
        CodeUnitLessTransitive(a[0], b[0], a[0]);
        CodeUnitLessIrreflexive(a[0]);
        assert false;
      }
      forall y
        ensures y in a[1..] <==> y in b[1..]
      {
        if y in a[1..] {
          var k :| 0 <= k < |a[1..]| && a[1..][k] == y;
          CodeUnitLessIrreflexive(y);
          assert a[k + 1] == y && y != a[0];
          assert y in b && y != b[0];
        }
        if y in b[1..] {
          var k :| 0 <= k < |b[1..]| && b[1..][k] == y;
          CodeUnitLessIrreflexive(y);
          assert b[k + 1] == y && y != b[0];
          assert y in a && y != a[0];
        }
      }
      StrictlySortedUnique(a[1..], b[1..]);
    }
  }

  /** `Array.from(new Set(data.map(d => d["neighbourhood group"]))).filter(…).sort()`. */
  function CheckboxGroups(data: seq<Listing>): (r: seq<string>)
    ensures StrictlySorted(r)
    ensures forall s :: s in r ==> s != "" && s != "Unknown"
  {
    var candidates := Candidates(Distinct(Map(GroupOf, data)));
    CandidatesDistinct(Distinct(Map(GroupOf, data)));
    SortStringsSorted(candidates);
    SortStrings(candidates)
  }

  /**
   * The checkbox list: strictly ascending (so free of duplicates), and holding exactly
   * the present groups other than the empty string and "Unknown"; it is the only such list.
   */
  lemma CheckboxGroupsSpec(data: seq<Listing>)
    ensures StrictlySorted(CheckboxGroups(data))
    ensures forall s :: s in CheckboxGroups(data) <==>
      s != "" && s != "Unknown" && exists d :: d in data && d.group == Some(s)
    ensures forall other ::
      (StrictlySorted(other) && (forall s :: s in other <==> s in CheckboxGroups(data))) ==> other == CheckboxGroups(data)
  {
    var groups := Map(GroupOf, data);
    var distinct := Distinct(groups);
    CandidatesDistinct(distinct);
    SortStringsSorted(Candidates(distinct));
    forall s
      ensures s in CheckboxGroups(data) <==>
        s != "" && s != "Unknown" && exists d :: d in data && d.group == Some(s)
    {
      if s in CheckboxGroups(data) {
        var k :| 0 <= k < |groups| && groups[k] == Some(s);
        assert groups[k] == GroupOf(data[k]);
        assert data[k] in data && data[k].group == Some(s);
      }
      if s != "" && s != "Unknown" && exists d :: d in data && d.group == Some(s) {
        var d :| d in data && d.group == Some(s);
        var k :| 0 <= k < |data| && data[k] == d;
        assert groups[k] == GroupOf(data[k]) == Some(s);
      }
    }
    forall other | StrictlySorted(other) && (forall s :: s in other <==> s in CheckboxGroups(data))
      ensures other == CheckboxGroups(data)
    {
      StrictlySortedUnique(other, CheckboxGroups(data));
    }
  }

  // ----- gathering the checked boxes -----

  /** The room types, in the order of their checkboxes. */
  const RoomTypeOptions: seq<string> := ["Entire home/apt", "Private room", "Shared room"]

  /** The values of the checked boxes, in document order. */
  function Checked(values: seq<string>, flags: seq<bool>): (r: seq<string>)
    requires |values| == |flags|
    ensures |r| <= |values|
    ensures forall x :: x in r ==> x in values
  {
    if values == [] then []
    else
      var n := |values| - 1;
      Checked(values[..n], flags[..n]) + (if flags[n] then [values[n]] else [])
  }

  /** A value is gathered iff one of its boxes is checked. */
  lemma {:induction false} CheckedMembers(values: seq<string>, flags: seq<bool>, x: string)
    requires |values| == |flags|
    ensures x in Checked(values, flags) <==> exists i :: 0 <= i < |values| && flags[i] && values[i] == x
  {
    if values != [] {
      var n := |values| - 1;
      CheckedMembers(values[..n], flags[..n], x);
      if x in Checked(values[..n], flags[..n]) {
        var i :| 0 <= i < n && flags[..n][i] && values[..n][i] == x;
        assert flags[i] && values[i] == x;
      }
      if exists i :: 0 <= i < |values| && flags[i] && values[i] == x {
        var i :| 0 <= i < |values| && flags[i] && values[i] == x;
        if i < n {
          assert flags[..n][i] && values[..n][i] == x;
        }
      }
    }
  }

  /** The `each` loops of `updateFilteredData` that push the checked values. */
  method GatherChecked(values: seq<string>, flags: seq<bool>) returns (selected: seq<string>)
    requires |values| == |flags|
    ensures selected == Checked(values, flags)
  {
    selected := [];
    var i := 0;
    while i < |values|
      invariant 0 <= i <= |values|
      invariant selected == Checked(values[..i], flags[..i])
    {
      assert values[..i + 1][..i] == values[..i];
      assert flags[..i + 1][..i] == flags[..i];
      if flags[i] {
        selected := selected + [values[i]];
      }
      i := i + 1;
    }
    assert values[..i] == values && flags[..i] == flags;
  }

  // ----- the filter of updateFilteredData -----

  /**
   * The filter's test: the record's group is among the gathered neighbourhood values, its
   * room type among the checked room types, and its price, stripped to digits, `.` and `-`
   * and read with unary `+`, is a number within the inclusive range (NaN never is).
   */
  predicate Selected(d: Listing, neighbourhoods: seq<string>, rooms: seq<string>, lo: real, hi: real)
    ensures Selected(d, neighbourhoods, rooms, lo, hi) ==> lo <= hi
  {
    var price := StrippedToNumber(d.price);
    d.group.Some? && d.group.value in neighbourhoods && d.roomType in rooms
    && price.Some? && lo <= price.value && price.value <= hi
  }

  function Selector(neighbourhoods: seq<string>, rooms: seq<string>, lo: real, hi: real): Listing -> bool {
    d => Selected(d, neighbourhoods, rooms, lo, hi)
  }

  /** `this.originalData.filter(…)`: the selected records in their original order. */
  function FilterListings(data: seq<Listing>, neighbourhoods: seq<string>, rooms: seq<string>, lo: real, hi: real): (r: seq<Listing>)
    ensures SubsequenceOf(r, data)
    ensures forall d :: d in r <==> d in data && Selected(d, neighbourhoods, rooms, lo, hi)
    ensures forall d {:trigger multiset(r)[d]} :: multiset(r)[d] == if Selected(d, neighbourhoods, rooms, lo, hi) then multiset(data)[d] else 0
  {
    Filter(data, Selector(neighbourhoods, rooms, lo, hi))
  }

  /**
   * Fewer selected values or a narrower price range never adds a record: the narrower
   * result is the wider one filtered again, so a subsequence of it.
   */
  lemma FilterNarrowing(data: seq<Listing>,
                        ns: seq<string>, rs: seq<string>, lo: real, hi: real,
                        ns': seq<string>, rs': seq<string>, lo': real, hi': real)
    requires forall x :: x in ns' ==> x in ns
    requires forall x :: x in rs' ==> x in rs
    requires lo <= lo' && hi' <= hi
    ensures FilterListings(data, ns', rs', lo', hi') == Filter(FilterListings(data, ns, rs, lo, hi), Selector(ns', rs', lo', hi'))
    ensures SubsequenceOf(FilterListings(data, ns', rs', lo', hi'), FilterListings(data, ns, rs, lo, hi))
  {
    var wide, narrow := Selector(ns, rs, lo, hi), Selector(ns', rs', lo', hi');
    forall d | narrow(d)
      ensures wide(d)
    {
      assert Selected(d, ns', rs', lo', hi');
    }
    FilterNarrowed(data, wide, narrow);
  }

  /** Filtering the filtered records again with the same selection changes nothing. */
  lemma FilterIdempotent(data: seq<Listing>, ns: seq<string>, rs: seq<string>, lo: real, hi: real)
    ensures FilterListings(FilterListings(data, ns, rs, lo, hi), ns, rs, lo, hi) == FilterListings(data, ns, rs, lo, hi)
  {
    FilterNarrowed(data, Selector(ns, rs, lo, hi), Selector(ns, rs, lo, hi));
  }

  /** A price that reads as NaN (such as "1.2.3" or "5-") is never selected. */
  lemma MalformedPriceExcluded(data: seq<Listing>, ns: seq<string>, rs: seq<string>, lo: real, hi: real, d: Listing)
    requires StrippedToNumber(d.price).None?
    ensures d !in FilterListings(data, ns, rs, lo, hi)
  {
  }

  /** A price with no digits, points or minus signs reads as 0 and is judged as a price of 0. */
  lemma NoDigitsPriceIsZero(data: seq<Listing>, ns: seq<string>, rs: seq<string>, lo: real, hi: real, d: Listing)
    requires forall i :: 0 <= i < |d.price| ==> !IsDigit(d.price[i]) && d.price[i] != '.' && d.price[i] != '-'
    ensures d in FilterListings(data, ns, rs, lo, hi) <==>
      d in data && d.group.Some? && d.group.value in ns && d.roomType in rs && lo <= 0.0 <= hi
  {
    NoNumeralReading(d.price);
  }

  /**
   * The neighbourhood values are gathered from every checked box of the filter container,
   * which also holds the room-type boxes: a checked room type is among them.
   */
  lemma RoomTypesAmongNeighbourhoods(groups: seq<string>, groupFlags: seq<bool>, roomFlags: seq<bool>, k: nat)
    requires |groupFlags| == |groups| && |roomFlags| == |RoomTypeOptions|
    requires k < |RoomTypeOptions| && roomFlags[k]
    ensures RoomTypeOptions[k] in Checked(groups + RoomTypeOptions, groupFlags + roomFlags)
    ensures RoomTypeOptions[k] in Checked(RoomTypeOptions, roomFlags)
  {
    var i := |groups| + k;
    assert (groupFlags + roomFlags)[i] && (groups + RoomTypeOptions)[i] == RoomTypeOptions[k];
    CheckedMembers(groups + RoomTypeOptions, groupFlags + roomFlags, RoomTypeOptions[k]);
    CheckedMembers(RoomTypeOptions, roomFlags, RoomTypeOptions[k]);
  }

  /**
   * With the checkbox list of the corrected data, a record whose group is missing, empty
   * or "Unknown" is never selected, whatever is checked.
   */
  lemma UnlistedGroupsNeverSelected(data: seq<Listing>, groupFlags: seq<bool>, roomFlags: seq<bool>,
                                    lo: real, hi: real, d: Listing)
    requires |groupFlags| == |CheckboxGroups(data)| && |roomFlags| == |RoomTypeOptions|
    requires d.group.None? || d.group.value == "" || d.group.value == "Unknown"
    ensures d !in FilterListings(data, Checked(CheckboxGroups(data) + RoomTypeOptions, groupFlags + roomFlags),
                                 Checked(RoomTypeOptions, roomFlags), lo, hi)
  {
    var values := CheckboxGroups(data) + RoomTypeOptions;
    if d.group.Some? {
      var g := d.group.value;
      CheckboxGroupsSpec(data);
      assert g !in CheckboxGroups(data);
      assert g !in RoomTypeOptions;
      forall i | 0 <= i < |values|
        ensures values[i] != g
      {
        assert values[i] in CheckboxGroups(data) || values[i] in RoomTypeOptions;
      }
      CheckedMembers(values, groupFlags + roomFlags, g);
    }
  }

  // ----- the controller -----

  /**
   * `createCombinedFilters`: the correction pass, which control.js runs over the shared
   * records in place, followed by the list of group checkboxes built from the corrected records.
   */
  method CreateCombinedFilters(data: seq<Listing>) returns (corrected: seq<Listing>, groups: seq<string>)
    ensures corrected == CorrectAll(data)
    ensures groups == CheckboxGroups(corrected)
  {
    corrected := data;
    var i := 0;
    while i < |corrected|
      invariant 0 <= i <= |corrected| == |data|
      invariant forall k :: 0 <= k < i ==> corrected[k] == CorrectRecord(data[k])
      invariant forall k :: i <= k < |corrected| ==> corrected[k] == data[k]
    {
      var d := corrected[i];
      if d.group.Some? && Trim(d.group.value) in Corrections {
        corrected := corrected[i := d.(group := Some(Corrections[Trim(d.group.value)]))];
      }
      assert corrected[i] == CorrectRecord(data[i]);
      i := i + 1;
    }
    assert forall k :: 0 <= k < |data| ==> CorrectAll(data)[k] == CorrectRecord(data[k]);
    groups := CheckboxGroups(corrected);
  }

  /** One call of a view's `update`, with the data it was handed. */
  datatype ViewUpdate =
    | ScatterUpdated(data: seq<Listing>)
    | HeatmapUpdated(data: seq<Listing>)
    | BarchartUpdated(data: seq<Listing>)

  class Control {
    /** `this.margin`: top 40, right 40, bottom 60, left 60. */
    const margin: Margin := Margin(40, 40, 60, 60)
    const originalData: seq<Listing>
    var filteredData: seq<Listing>
    /** The values of the group checkboxes, in document order. */
    const groupOptions: seq<string>
    const scatter: Scatter
    const heatmap: HeatMap
    const barchart: BarChart
    /** The bar chart on the page: the bar chart's `update` builds a new chart object each time. */
    ghost var shownBarChart: BarChart
    /** The view updates issued so far, in order. */
    ghost var updates: seq<ViewUpdate>

    ghost predicate Valid()
      reads this, scatter, scatter.tooltips
    {
      scatter.Valid()
      && groupOptions == CheckboxGroups(originalData)
      && barchart.margin == margin && shownBarChart.margin == margin
      && shownBarChart.width == barchart.width && shownBarChart.height == barchart.height
    }

    /**
     * The scatter plot is built from the records before the correction pass; the heat map
     * and the bar chart from the corrected ones, which are also `originalData` and
     * `filteredData`. The root is 2300 by 2000 pixels: the scatter plot and the heat map get
     * half its width less 150 and half its height, the bar chart its width and half its height.
     */
    constructor (data: seq<Listing>)
      ensures Valid() && fresh(scatter) && fresh(scatter.tooltip) && fresh(heatmap) && fresh(barchart)
      ensures originalData == CorrectAll(data) && filteredData == originalData
      ensures groupOptions == CheckboxGroups(originalData)
      ensures scatter.width == 1000 && scatter.height == 1000
      ensures scatter.filteredData == ScatterClean(data) && scatter.points == Points(scatter.filteredData)
      ensures heatmap.width == 1000 && heatmap.height == 1000
      ensures heatmap.circles == Circles(Plotted(originalData))
      ensures barchart.width == 2200 && barchart.height == 900
      ensures barchart.groups == BarGroups(BarClean(originalData)) && barchart.avgData == AvgData(BarClean(originalData))
      ensures shownBarChart == barchart && updates == []
    {
      scatter := new Scatter(data, 1000, 1000);
      var corrected, groups := CreateCombinedFilters(data);
      originalData, filteredData, groupOptions := corrected, corrected, groups;
      heatmap := new HeatMap(1000, 1000, corrected);
      var chart := new BarChart(corrected, 2300, 1000, Margin(40, 40, 60, 60));
      barchart, shownBarChart := chart, chart;
      updates := [];
    }

    /**
     * `updateFilteredData`: gather the checked boxes (the neighbourhood values from every
     * box of the container, group boxes first; the room types from the room-type boxes),
     * filter `originalData`, and hand the result to the scatter plot, the heat map and the
     * bar chart, in that order.
     */
    method UpdateFilteredData(groupFlags: seq<bool>, roomFlags: seq<bool>, minPrice: real, maxPrice: real)
      requires Valid()
      requires |groupFlags| == |groupOptions| && |roomFlags| == |RoomTypeOptions|
      modifies this`filteredData, this`shownBarChart, this`updates, scatter, scatter.tooltip, heatmap
      ensures Valid()
      ensures filteredData == FilterListings(originalData,
        Checked(groupOptions + RoomTypeOptions, groupFlags + roomFlags), Checked(RoomTypeOptions, roomFlags),
        minPrice, maxPrice)
      ensures scatter.filteredData == ScatterClean(filteredData) && scatter.points == Points(scatter.filteredData)
      ensures !scatter.titleShown
      ensures fresh(scatter.tooltip) && !old(scatter.tooltip).attached
      ensures heatmap.circles == Circles(Plotted(filteredData))
      ensures heatmap.mapDraws == old(heatmap.mapDraws) && heatmap.legendDraws == old(heatmap.legendDraws)
      ensures fresh(shownBarChart)
      ensures shownBarChart.groups == BarGroups(BarClean(filteredData))
      ensures shownBarChart.avgData == AvgData(BarClean(filteredData))
      ensures updates == old(updates) + [ScatterUpdated(filteredData)] + [HeatmapUpdated(filteredData)] + [BarchartUpdated(filteredData)]
    {
      var selectedNeighborhoods := GatherChecked(groupOptions + RoomTypeOptions, groupFlags + roomFlags);
      var selectedRoomTypes := GatherChecked(RoomTypeOptions, roomFlags);
      filteredData := FilterListings(originalData, selectedNeighborhoods, selectedRoomTypes, minPrice, maxPrice);
      NotifyScatter();
      NotifyHeatmap();
      NotifyBarchart();
    }

    /** `this.Scatter.update(this.filteredData)`. */
    method NotifyScatter()
      requires Valid()
      modifies this`updates, scatter, scatter.tooltip
      ensures Valid()
      ensures scatter.filteredData == ScatterClean(filteredData) && scatter.points == Points(scatter.filteredData)
      ensures !scatter.titleShown
      ensures fresh(scatter.tooltip) && !old(scatter.tooltip).attached
      ensures updates == old(updates) + [ScatterUpdated(filteredData)]
    {
      scatter.Update(filteredData);
      updates := updates + [ScatterUpdated(filteredData)];
    }

    /** `this.Heatmap.update(this.filteredData)`. */
    method NotifyHeatmap()
      requires Valid()
      modifies this`updates, heatmap
      ensures Valid()
      ensures heatmap.circles == Circles(Plotted(filteredData))
      ensures heatmap.mapDraws == old(heatmap.mapDraws) && heatmap.legendDraws == old(heatmap.legendDraws)
      ensures updates == old(updates) + [HeatmapUpdated(filteredData)]
    {
      heatmap.Update(filteredData);
      updates := updates + [HeatmapUpdated(filteredData)];
    }

    /**
     * `this.Barchart.update(this.filteredData)`: the first chart builds a new chart of the
     * same size from the data, which replaces the chart on the page.
     */
    method NotifyBarchart()
      requires Valid()
      modifies this`updates, this`shownBarChart
      ensures Valid()
      ensures fresh(shownBarChart)
      ensures shownBarChart.groups == BarGroups(BarClean(filteredData))
      ensures shownBarChart.avgData == AvgData(BarClean(filteredData))
      ensures updates == old(updates) + [BarchartUpdated(filteredData)]
    {
      var chart := barchart.Update(filteredData);
      shownBarChart := chart;
      updates := updates + [BarchartUpdated(filteredData)];
    }
  }
}
