/** One row of the Airbnb listings table, as the dashboard receives it from `d3.csv`. */
module Listings {
  import opened Optional

  /**
   * The columns the dashboard reads. Text columns are kept as the raw strings of the
   * table; `group` is `None` when the row has no "neighbourhood group" value at all.
   * `lat` and `long` are the numbers `+d.lat` and `+d.long` (`None` standing for NaN).
   */
  datatype Listing = Listing(
    group: Option<string>,     // "neighbourhood group"
    roomType: string,          // "room type"
    price: string,             // "price", e.g. "$1,234.50"
    reviewRate: string,        // "review rate number"
    reviewsPerMonth: string,   // "reviews per month"
    reviewCount: string,       // "number of reviews"
    lat: Option<real>,
    long: Option<real>)
}
