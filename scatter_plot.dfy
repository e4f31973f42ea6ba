/**
 * The data side of the scatter plot of price against review rate (scatterPlot.js):
 * the cleaning map and filter of `render`, the projection to plotted points, and the
 * `Scatter` object whose `update` replaces its tooltip and re-renders.
 */
module ScatterPlot {
  import opened Optional
  import opened Seqs
  import opened JsNumbers
  import opened Listings

  /**
   * A listing after the cleaning map of `render`. The spread `...d` keeps every column of
   * the listing; the four numeric columns are replaced by their readings: price and review
   * rate are `null` (`None`) when unreadable, the two review counts fall back to 0.
   */
  datatype Cleaned = Cleaned(
    listing: Listing,
    price: Option<real>,
    rate: Option<real>,
    perMonth: real,
    reviews: real)

  /** One plotted point, with the field names of the `points` array. */
  datatype Point = Point(
    rate: real,
    price: real,
    size: real,
    color: real,
    group: Option<string>,
    roomType: string)

  function OrZero(r: Option<real>): real {
    if r.Some? then r.value else 0.0
  }

  /** The cleaning map of `render`: each column stripped to digits and `.`, then `parseFloat`. */
  function Clean(d: Listing): (c: Cleaned)
    ensures c.listing == d
    ensures c.price.Some? ==> c.price.value >= 0.0
    ensures c.rate.Some? ==> c.rate.value >= 0.0
    ensures c.perMonth >= 0.0 && c.reviews >= 0.0
  {
    Cleaned(d,
      StrippedParseFloat(d.price),
      StrippedParseFloat(d.reviewRate),
      OrZero(StrippedParseFloat(d.reviewsPerMonth)),
      OrZero(StrippedParseFloat(d.reviewCount)))
  }

  /** The filter of `render`: price and review rate present and positive. */
  predicate Survives(c: Cleaned) {
    c.price.Some? && c.rate.Some? && c.price.value > 0.0 && c.rate.value > 0.0
  }

  predicate IsPositive(r: Option<real>) {
    r.Some? && r.value > 0.0
  }

  /** What `render` stores in `this.filteredData`. */
  function ScatterClean(data: seq<Listing>): (r: seq<Cleaned>)
    ensures forall i :: 0 <= i < |r| ==> Survives(r[i])
    ensures |r| <= |data|
  {
    var cleaned := Map(Clean, data);
    var r := Filter(cleaned, Survives);
    SubsequenceBounds(r, cleaned);
    r
  }

  function ToPoint(c: Cleaned): (p: Point)
    requires Survives(c)
    ensures p.rate > 0.0 && p.price > 0.0
  {
    Point(c.rate.value, c.price.value, c.reviews, c.perMonth, c.listing.group, c.listing.roomType)
  }

  /** The `points` array of `render`, one point per cleaned record. */
  function Points(cs: seq<Cleaned>): (ps: seq<Point>)
    requires forall i :: 0 <= i < |cs| ==> Survives(cs[i])
    ensures |ps| == |cs|
    ensures forall i :: 0 <= i < |ps| ==> ps[i].rate > 0.0 && ps[i].price > 0.0
  {
    seq(|cs|, i requires 0 <= i < |cs| => ToPoint(cs[i]))
  }

  // ----- properties -----

  /**
   * Cleaning keeps the listing itself, turns an unreadable price or review rate into
   * `null` and an unreadable review count into 0; no reading is negative.
   */
  lemma CleanFields(d: Listing)
    ensures Clean(d).listing == d
    ensures Clean(d).price.None? <==> StrippedParseFloat(d.price).None?
    ensures Clean(d).rate.None? <==> StrippedParseFloat(d.reviewRate).None?
    ensures StrippedParseFloat(d.reviewsPerMonth).None? ==> Clean(d).perMonth == 0.0
    ensures StrippedParseFloat(d.reviewCount).None? ==> Clean(d).reviews == 0.0
    ensures Clean(d).perMonth >= 0.0 && Clean(d).reviews >= 0.0
  {
  }

  /** A listing of the input reaches `filteredData` iff its price and review rate read as positive numbers. */
  lemma ScatterKeeps(data: seq<Listing>, d: Listing)
    requires d in data
    ensures Clean(d) in ScatterClean(data) <==>
      IsPositive(StrippedParseFloat(d.price)) && IsPositive(StrippedParseFloat(d.reviewRate))
  {
    var k :| 0 <= k < |data| && data[k] == d;
    assert Map(Clean, data)[k] == Clean(d);
  }

  /** Every cleaned record comes from a listing of the input, and they keep the input's order. */
  lemma ScatterOrder(data: seq<Listing>)
    ensures SubsequenceOf(Map((c: Cleaned) => c.listing, ScatterClean(data)), data)
    ensures forall c :: c in ScatterClean(data) ==> c.listing in data && c == Clean(c.listing)
  {
    var cleaned := Map(Clean, data);
    var source := (c: Cleaned) => c.listing;
    MapSubsequence(source, ScatterClean(data), cleaned);
    assert Map(source, cleaned) == data by {
      forall k | 0 <= k < |data|
        ensures Map(source, cleaned)[k] == data[k]
      {
        assert cleaned[k] == Clean(data[k]);
      }
    }
    forall c | c in ScatterClean(data)
      ensures c.listing in data && c == Clean(c.listing)
    {
      var k :| 0 <= k < |cleaned| && cleaned[k] == c;
      assert data[k] == c.listing;
    }
  }

  /**
   * `points` has one point per cleaned record, in the same order, copying the record's
   * readings and its group and room type; every point has a positive rate and price.
   */
  lemma PointsOfRecords(cs: seq<Cleaned>, i: nat)
    requires forall j :: 0 <= j < |cs| ==> Survives(cs[j])
    requires i < |cs|
    ensures |Points(cs)| == |cs|
    ensures Points(cs)[i].rate == cs[i].rate.value > 0.0
    ensures Points(cs)[i].price == cs[i].price.value > 0.0
    ensures Points(cs)[i].size == cs[i].reviews && Points(cs)[i].color == cs[i].perMonth
    ensures Points(cs)[i].group == cs[i].listing.group && Points(cs)[i].roomType == cs[i].listing.roomType
  {
  }

  /** The tooltip `div` a Scatter appends to the page body; `attached` until it is removed. */
  class Tooltip {
    var attached: bool

    constructor ()
      ensures attached
    {
      attached := true;
    }
  }

  class Scatter {
    const width: int
    const height: int
    var filteredData: seq<Cleaned>
    var points: seq<Point>
    /** Whether the chart title drawn by the constructor is still in the SVG. */
    var titleShown: bool
    var tooltip: Tooltip
    /** Every tooltip this Scatter has appended to the page. */
    ghost var tooltips: set<Tooltip>

    /** Of all the tooltips this Scatter has created, exactly the current one is on the page. */
    ghost predicate Valid()
      reads this, tooltips
    {
      tooltip in tooltips && forall t :: t in tooltips ==> (t.attached <==> t == tooltip)
    }

    constructor (data: seq<Listing>, w: int, h: int)
      ensures Valid() && tooltips == {tooltip} && fresh(tooltip)
      ensures width == w && height == h && titleShown
      ensures filteredData == ScatterClean(data) && points == Points(filteredData)
    {
      width, height := w, h;
      tooltip := new Tooltip();
      tooltips := {tooltip};
      titleShown := true;
      filteredData, points := [], [];
      new;
      Render(data);
    }

    /** `render`: clean and filter the input, store it, and plot one point per record. */
    method Render(input: seq<Listing>)
      modifies this`filteredData, this`points
      ensures filteredData == ScatterClean(input) && points == Points(filteredData)
    {
      filteredData := ScatterClean(input);
      points := Points(filteredData);
    }

    /**
     * `update`: clear the SVG (the title goes with it), remove the old tooltip, append a
     * new one and render the new data.
     */
    method Update(newData: seq<Listing>)
      requires Valid()
      modifies this, tooltip
      ensures Valid() && fresh(tooltip) && !old(tooltip).attached
      ensures tooltips == old(tooltips) + {tooltip}
      ensures !titleShown
      ensures filteredData == ScatterClean(newData) && points == Points(filteredData)
    {
      titleShown := false;
      tooltip.attached := false;
      tooltip := new Tooltip();
      tooltips := tooltips + {tooltip};
      Render(newData);
    }
  }
}
