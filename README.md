# Airbnb dashboard: data preparation and filtering, in Dafny

This project models the data side of a D3 dashboard over New York Airbnb listings.
A controller (`control.js`) owns the listings and does three things:

- It corrects misspelt neighbourhood groups in place.
- It builds the checkbox list of groups.
- On every change of the filter controls, it recomputes `filteredData` and hands it to three views:
  - a scatter plot of price against review rate (`scatterPlot.js`);
  - a heat map of listing locations coloured by price (`heatMap.js`);
  - a grouped bar chart of average price per neighbourhood group and room type (`BarGraph.js`).

Each view cleans the listings in its own way before drawing. The model states these cleanings, the filter, the aggregation and the view updates, and proves what they promise.

## Modules

- `optional.dfy` (`Optional`): the `Option` type. `None` stands for `null`, and for `NaN` wherever a number is read.
- `seqs.dfy` (`Seqs`): the sequence operations the four JavaScript files use.
  - `Array.from(new Set(…))` is `Distinct`, in first-appearance order.
  - `filter` is `Filter`; `map` is `Map`.
  - The subsequence relation.
- `js_strings.dfy` (`JsStrings`):
  - `trim` and the JavaScript white-space set.
  - The two character-deleting regular expressions, `/[^0-9.]+/g` and `/[^0-9.-]+/g`.
  - The code-unit order used by the default `Array.prototype.sort`.
- `js_numbers.dfy` (`JsNumbers`): the two ways the JavaScript files read a number from a stripped string. Numbers are exact reals.
  - `parseFloat` reads the longest decimal-numeral prefix.
  - Unary `+` (ToNumber, section 7.1.4.1 of ECMA-262) needs the whole string to be one numeral, and reads the empty string as 0.
- `listings.dfy` (`Listings`): one row of the listings table.
- `scatter_plot.dfy` (`ScatterPlot`):
  - the cleaning map and filter of `render`;
  - the `points` projection;
  - the `Scatter` object, which replaces its tooltip on `update`.
- `heat_map.dfy` (`HeatMapPlot`):
  - the parse and truthiness filter of `plotData`;
  - the in-place stable sort by price, kept on an array;
  - the radius rule;
  - the `HeatMap` object, whose data layer is re-plotted on `update`.
- `bar_graph.dfy` (`BarGraph`):
  - the cleaning and the distinct groups;
  - the nested loops that fill `avgData` with mean prices;
  - the size round trip of `update`, which builds a new chart.
- `control.dfy` (`Dashboard`):
  - the correction pass and the checkbox list;
  - the gathering of checked boxes and the filter;
  - the `Control` class, whose ghost `updates` log records the hand-offs to the views in order.

## Model

| member | source | states |
|---|---|---|
| JsStrings.Trim | control.js:33 | the result is the part of the string between its leading and its trailing white space: everything before it and everything after it is white space, it has no white space at either end, and it equals the string when neither end is white space |
| JsStrings.TrimStart | control.js:33 | drops exactly the leading white space |
| JsStrings.TrimEnd | control.js:33 | drops exactly the trailing white space |
| JsStrings.KeepDigitsAndDots | BarGraph.js:34 | deleting every character but digits and `.` never lengthens the string |
| JsStrings.KeepDigitsAndDotsAppend | scatterPlot.js:55-58 | the deletion works character by character: it distributes over concatenation |
| JsStrings.KeepDigitsAndDotsFixed | scatterPlot.js:55-58 | a string of digits and points is left as it is |
| JsStrings.KeepDigitsAndDotsAlphabet | scatterPlot.js:55-58 | only digits and points remain |
| JsStrings.KeepDigitsAndDotsKeeps | scatterPlot.js:55-58 | every digit and point of the input remains |
| JsStrings.KeepDigitsAndDotsNone | BarGraph.js:34 | a string with no digit or point is deleted entirely |
| JsStrings.KeepNumeralChars | control.js:148 | deleting every character but digits, `.` and `-` never lengthens the string |
| JsStrings.KeepNumeralCharsAppend | control.js:148 | that deletion distributes over concatenation |
| JsStrings.KeepNumeralCharsFixed | heatMap.js:74 | a string of digits, points and minus signs is left as it is |
| JsStrings.KeepNumeralCharsAlphabet | heatMap.js:74 | only digits, points and minus signs remain |
| JsStrings.KeepNumeralCharsKeeps | heatMap.js:74 | every digit, point and minus sign of the input remains |
| JsStrings.KeepNumeralCharsNone | control.js:148 | a string with no digit, point or minus sign is deleted entirely |
| JsStrings.CodeUnitLessIrreflexive | control.js:56 | the sort order never puts a string before itself |
| JsStrings.CodeUnitLessTransitive | control.js:56 | the sort order is transitive |
| JsStrings.CodeUnitLessTotal | control.js:56 | any two different strings are ordered one way or the other |
| JsNumbers.Pow10 | BarGraph.js:34 | a power of ten is at least 1 |
| JsNumbers.LeadingDigits | scatterPlot.js:55 | the longest run of digits at the start of a string: a prefix, all digits, followed by a non-digit or the end |
| JsNumbers.Value | scatterPlot.js:55 | a numeral's value is never negative |
| JsNumbers.ScanNumeral | scatterPlot.js:55 | a scanned numeral is a well-formed prefix of the input; there is none exactly when the input starts with neither a digit nor a point followed by a digit |
| JsNumbers.ParseFloat | BarGraph.js:34 | `parseFloat` of digits and points is never negative, and is `NaN` exactly when no numeral starts the string |
| JsNumbers.ToNumber | control.js:148 | unary `+` reads the empty string as 0; a reading is non-negative without a leading minus and non-positive with one |
| JsNumbers.ToNumberNumeralForms | control.js:148 | conversely, unary `+` reads a non-empty string as a number only when the string is a numeral, or a minus sign followed by one, and the number is that numeral's value or its negation |
| JsNumbers.StrippedParseFloat | BarGraph.js:34 | the strip-then-`parseFloat` rule never gives a negative number |
| JsNumbers.StrippedToNumber | control.js:148 | the strip-then-unary-`+` price rule (also `heatMap.js:74`) gives a negative number only when the raw string holds a minus sign |
| JsNumbers.LeadingDigitsOfDigits | scatterPlot.js:55 | the digit run of digits followed by a non-digit is those digits |
| JsNumbers.ScanText | scatterPlot.js:55 | scanning a numeral's text gives the numeral back (round trip) |
| JsNumbers.ScanNumeralLongest | scatterPlot.js:55 | the numeral `parseFloat` reads is at least as long as any numeral prefix of the string |
| JsNumbers.NumeralTextHasNoMinus | heatMap.js:74 | a numeral's text has no minus sign |
| JsNumbers.ToNumberMisplacedMinus | heatMap.js:74 | unary `+` gives `NaN` when a minus sign stands anywhere but first |
| JsNumbers.ToNumberTwoPoints | control.js:148 | unary `+` gives `NaN` for two decimal points |
| JsNumbers.UnsignedTwoPoints | control.js:148 | an unsigned string with two points is not one numeral |
| JsNumbers.NumeralPoints | control.js:148 | a numeral has at most one point, right after its whole part |
| JsNumbers.ToNumberAgreesWithParseFloat | control.js:148 | where unary `+` reads a non-empty unsigned string, `parseFloat` reads the same number |
| JsNumbers.ReadNumeralText | control.js:148 | both readings give a numeral's value back from its text, and unary `+` gives the negated value after a minus sign |
| JsNumbers.IgnoresSeparator | BarGraph.js:34 | a character other than a digit, point or minus sign anywhere in the raw string does not change either reading |
| JsNumbers.StrippedNumeral | BarGraph.js:34 | both reading rules give a bare numeral's value |
| JsNumbers.CurrencyReading | BarGraph.js:34 | a price written as `$`, a numeral and a thousands comma anywhere in it reads as the numeral's value under both rules (e.g. `"$1,234.50"` is 1234.5) |
| JsNumbers.MinusReading | BarGraph.js:34 | `"-5"` reads as 5 under `parseFloat`, whose strip drops the minus sign, and as -5 under unary `+` |
| JsNumbers.TwoPointsReading | control.js:148 | `"1.2.3"` reads as 1.2 under `parseFloat` and as `NaN` under unary `+` |
| JsNumbers.NoNumeralReading | control.js:148 | a string with no digit, point or minus sign is `NaN` to `parseFloat` and 0 to unary `+` |
| JsNumbers.NoDigitsReading | control.js:148 | `"n/a"` is `NaN` to `parseFloat` and 0 to unary `+` |
| JsNumbers.TrailingMinusReading | control.js:148 | `"5-"` is `NaN` to unary `+` |
| Seqs.Distinct | control.js:54 | `Array.from(new Set(xs))` has exactly the elements of `xs`, with no duplicates and no more entries than `xs` |
| Seqs.DistinctKeepsFirstAppearance | BarGraph.js:38 | distinct elements come in the order of their first appearance |
| Seqs.FirstIndex | BarGraph.js:38 | the first position of an element |
| Seqs.FirstIndexOfPrefix | BarGraph.js:38 | appending does not move a first appearance |
| Seqs.FirstIndexOfNew | BarGraph.js:38 | a new element first appears where it is appended |
| Seqs.SubsequenceBounds | control.js:147-152 | a subsequence is no longer than the sequence, and all its elements come from it |
| Seqs.Filter | control.js:147-152 | `filter` keeps exactly the elements that pass, as a subsequence in their original order, each as many times as it occurs in the input; a failing element does not occur at all |
| Seqs.FilterNarrowed | control.js:147-152 | filtering by a weaker and then a stronger test is filtering by the stronger one |
| Seqs.MapSubsequence | scatterPlot.js:54-70 | mapping keeps a subsequence a subsequence |
| ScatterPlot.Clean | scatterPlot.js:54-66 | cleaning keeps the listing; price and review rate are absent or non-negative; the two review counts are non-negative |
| ScatterPlot.ScatterClean | scatterPlot.js:54-70 | every cleaned record has a positive price and a positive review rate; there are no more records than in the input |
| ScatterPlot.CleanFields | scatterPlot.js:55-66 | cleaning keeps the listing; an unreadable price or rate becomes `null`; unreadable review counts become 0; no reading is negative |
| ScatterPlot.ScatterKeeps | scatterPlot.js:67-70 | a listing survives iff its price and review rate both read as positive numbers |
| ScatterPlot.ScatterOrder | scatterPlot.js:54-70 | the surviving records are the cleaned forms of input listings, in input order |
| ScatterPlot.Points | scatterPlot.js:117-124 | one point per cleaned record, each with a positive rate and a positive price |
| ScatterPlot.PointsOfRecords | scatterPlot.js:117-124 | one point per record, in order, carrying its rate, price, review count (size), reviews per month (colour), group and room type |
| ScatterPlot.Scatter.constructor | scatterPlot.js:2-47 | the new plot owns exactly one tooltip, which is on the page, shows its title, and has rendered the data |
| ScatterPlot.Scatter.Render | scatterPlot.js:49-72 | `filteredData` is the cleaned input and `points` its projection |
| ScatterPlot.Scatter.Update | scatterPlot.js:259-277 | the old tooltip is removed and exactly one new one appended, so only the current tooltip is on the page; the title is gone; the new data is rendered |
| HeatMapPlot.ParseRow | heatMap.js:71-76 | latitude, longitude, group and room type are copied; the unary-`+` price is negative only when the raw price holds a minus sign |
| HeatMapPlot.KeptRows | heatMap.js:71-77 | every kept row has latitude, longitude and price that are neither 0 nor `NaN` |
| HeatMapPlot.HeatKeeps | heatMap.js:71-77 | a listing's row is kept iff its latitude, longitude and unary-`+` price are all truthy |
| HeatMapPlot.NegativePriceKept | heatMap.js:74 | a price of `"-5"` is kept and reads as -5 |
| HeatMapPlot.Plotted | heatMap.js:71-79 | the rows to draw are sorted by price, and each has truthy latitude, longitude and price |
| HeatMapPlot.PlottedFromInput | heatMap.js:71-79 | every plotted row is a kept row parsed from an input listing, with its group and room type |
| HeatMapPlot.InsertPermutes | heatMap.js:79 | one insertion step is a permutation |
| HeatMapPlot.InsertSorted | heatMap.js:79 | one insertion step keeps the rows sorted by price |
| HeatMapPlot.WithPriceAppend | heatMap.js:79 | the rows of one price in a concatenation are those of each part, in order |
| HeatMapPlot.InsertStable | heatMap.js:79 | an insertion puts the new row after every row of equal price |
| HeatMapPlot.StableSortByPrice | heatMap.js:79 | the sort keeps the number of rows (with StableSortCorrect: sorted, a permutation, stable) |
| HeatMapPlot.StableSortCorrect | heatMap.js:79 | the sort is non-decreasing by price, a permutation, and stable: the rows of each price keep their input order |
| HeatMapPlot.InsertSplit | heatMap.js:79 | an insertion puts the row just after the last row with a price not above its own |
| HeatMapPlot.InsertInPlace | heatMap.js:79 | the in-place shift inserts element `i` into the sorted prefix and leaves the rest alone |
| HeatMapPlot.SortByPrice | heatMap.js:79 | the in-place sort leaves the array equal to the stable sort of its old contents |
| HeatMapPlot.Radius | heatMap.js:87-91 | the radius is 4 iff the price is at most 600, and 2 iff it is above 600 |
| HeatMapPlot.PlottedRadii | heatMap.js:79-91 | along the drawing order the radii never grow |
| HeatMapPlot.HeatMap.constructor | heatMap.js:2-21 | the map and the legend are drawn once, and one circle is drawn per plotted row |
| HeatMapPlot.PlotRows | heatMap.js:71-79 | the rows copied into the array and sorted there in place are exactly the plotted rows: kept, sorted by price, stable |
| HeatMapPlot.HeatMap.PlotData | heatMap.js:70-92 | the data join appends circles only for the rows beyond those already drawn; on an empty layer the circles are exactly those of the plotted rows |
| HeatMapPlot.HeatMap.Render | heatMap.js:118-164 | on an empty layer, draws the map, one circle per plotted row, and the legend |
| HeatMapPlot.HeatMap.Update | heatMap.js:166-169 | the circles are exactly those of the new data; the map and the legend are not redrawn |
| BarGraph.BarClean | BarGraph.js:30-35 | every cleaned row has a positive price and one of the five valid groups |
| BarGraph.BarKeeps | BarGraph.js:30-35 | a listing with a positive price and a valid group yields a cleaned row |
| BarGraph.BarCleanFromInput | BarGraph.js:30-35 | every cleaned row comes from an input listing that passes the test, with its group, room type and price |
| BarGraph.BarGroups | BarGraph.js:38 | `groups` has no duplicates and holds exactly the groups of the cleaned rows |
| BarGraph.MeanPrice | BarGraph.js:40-54 | with no matching row the average is 0; otherwise it times the count is the sum of the matching prices, the `d3.mean` of the pair |
| BarGraph.AvgData | BarGraph.js:40-57 | `avgData` has three rows per group, row k for group k/3 and room type k%3 |
| BarGraph.BuildAvgData | BarGraph.js:47-57 | the nested loops produce exactly the rollup rows |
| BarGraph.SumOfPositive | BarGraph.js:40-45 | a sum of positive prices is non-negative, and positive iff some row matches |
| BarGraph.CountPositive | BarGraph.js:40-45 | the count is positive iff some row matches |
| BarGraph.SumBounds | BarGraph.js:40-45 | the sum lies between count × lowest and count × highest matching price |
| BarGraph.MeanPricePositive | BarGraph.js:40-54 | every average is non-negative, and positive iff the pair has a row (0 when missing) |
| BarGraph.MeanPriceWithin | BarGraph.js:40-45 | an average lies between the lowest and highest matching price |
| BarGraph.QuotientBounds | BarGraph.js:40-45 | dividing a sum of n values within bounds by n stays within the bounds |
| BarGraph.RollupShape | BarGraph.js:47-57 | three rows per group, in group order and then Shared room, Private room, Entire home/apt, each holding that pair's average; other room types never get a row |
| BarGraph.NoDuplicatesCard | BarGraph.js:38 | a duplicate-free list has as many elements as its set |
| BarGraph.SubsetCard | BarGraph.js:38 | a subset is no larger, and equally large only when equal |
| BarGraph.AvgDataCount | BarGraph.js:37-57 | `avgData` has 3 rows per group present after cleaning, at most 15, and exactly 15 iff all five groups are present |
| BarGraph.SizeRoundTrip | BarGraph.js:2-9 | `update` keeps the inner width, and keeps the inner height iff top + bottom = left + right |
| BarGraph.BarChart.constructor | BarGraph.js:2-57 | the inner size subtracts left and right from both dimensions; `groups` and `avgData` come from the cleaned data |
| BarGraph.BarChart.Update | BarGraph.js:125-133 | a new chart with the same margin and width; its height changes by top + bottom − left − right; built from the new data |
| Dashboard.CorrectGroup | control.js:32-36 | a missing group stays missing; a changed group becomes `"Manhattan"`, `"Brooklyn"` or `"Unknown"` |
| Dashboard.CorrectGroupTable | control.js:26-37 | trimmed `"manhatan"`, `"brookln"` and `""` become `"Manhattan"`, `"Brooklyn"` and `"Unknown"`; nothing else is changed |
| Dashboard.CorrectGroupIdempotent | control.js:26-37 | no corrected value is a key of the table, so correcting twice is correcting once |
| Dashboard.CorrectAllOnlyGroups | control.js:32-37 | the pass keeps every record in place and changes only its group |
| Dashboard.CorrectAllIdempotent | control.js:32-37 | running the pass twice gives the records of running it once |
| Dashboard.Candidates | control.js:55 | a string is kept iff it is a present group other than `""` and `"Unknown"` |
| Dashboard.CandidatesDistinct | control.js:54-55 | filtering a duplicate-free list keeps it duplicate-free |
| Dashboard.InsertString | control.js:56 | one insertion adds exactly its element: the multiset grows by that one element |
| Dashboard.SortStrings | control.js:56 | sorting keeps the elements and the length, each element as many times as in the input |
| Dashboard.InsertStringSorted | control.js:56 | one insertion keeps a list strictly ascending |
| Dashboard.SortStringsSorted | control.js:56 | the sort of a duplicate-free list is strictly ascending |
| Dashboard.StrictlySortedUnique | control.js:56 | two strictly ascending lists with the same elements are equal, so the result does not depend on the sort algorithm |
| Dashboard.CheckboxGroups | control.js:54-56 | the checkbox list is strictly ascending and holds neither `""` nor `"Unknown"` |
| Dashboard.CheckboxGroupsSpec | control.js:54-56 | the checkbox list is strictly ascending and holds exactly the present groups other than `""` and `"Unknown"`; it is the only such list |
| Dashboard.Checked | control.js:134-142 | the gathered values are among the box values, and there are no more of them than boxes |
| Dashboard.CheckedMembers | control.js:134-142 | a value is gathered iff one of its boxes is checked |
| Dashboard.GatherChecked | control.js:134-142 | the `each` loop pushes the checked values in document order |
| Dashboard.Selected | control.js:148-151 | a record is selected only when the price range is non-empty |
| Dashboard.FilterListings | control.js:147-152 | the result is a subsequence of the data holding exactly the selected records, each as many times as in the data: group and room type selected, price read by unary `+` within the inclusive range, `NaN` never |
| Dashboard.FilterNarrowing | control.js:147-152 | fewer selected values or a narrower range give the wider result filtered again, a subsequence of it |
| Dashboard.FilterIdempotent | control.js:147-152 | filtering the result again with the same selection changes nothing |
| Dashboard.MalformedPriceExcluded | control.js:148-151 | a price that reads as `NaN` (`"1.2.3"`, `"5-"`) is never selected |
| Dashboard.NoDigitsPriceIsZero | control.js:148-151 | a price with no digit, point or minus sign is judged as 0 |
| Dashboard.RoomTypesAmongNeighbourhoods | control.js:135-142 | a checked room type is also among the gathered neighbourhood values, because its box is in the filter container |
| Dashboard.UnlistedGroupsNeverSelected | control.js:54-56 | with the checkbox list of the data, a record whose group is missing, `""` or `"Unknown"` is never selected |
| Dashboard.CreateCombinedFilters | control.js:25-56 | the pass leaves the corrected records, and the checkbox list is built from them |
| Dashboard.Control.constructor | control.js:2-23 | the scatter plot gets the uncorrected data; the correction, heat map and bar chart follow on the corrected data; view sizes 1000 × 1000 and 2200 × 900 inner; the views and the scatter plot's tooltip are new objects |
| Dashboard.Control.UpdateFilteredData | control.js:133-157 | `filteredData` is the filter of `originalData` (never of the previous result) by the gathered selections; the three views receive it in the order scatter, heat map, bar chart; the scatter plot's title is gone and its old tooltip is detached for a new one; the map and the legend are not redrawn |
| Dashboard.Control.NotifyScatter | control.js:154 | the scatter plot re-renders `filteredData`, its title is no longer shown, and its old tooltip is detached for a new one |
| Dashboard.Control.NotifyHeatmap | control.js:155 | the heat map re-plots `filteredData` without redrawing the map or the legend |
| Dashboard.Control.NotifyBarchart | control.js:156 | a new bar chart of the first chart's size is built from `filteredData` and replaces the one on the page |

## Left out

- D3 scales, axes and colour interpolation, and SVG/DOM construction: styles, legends' shapes, tooltip positioning and transitions. These are library calls with floating-point output and pure drawing. The model keeps only what is drawn (points, circles, rows) and counters for the map and legend drawings.
- Loading and projecting the borough map (an asynchronous fetch and Mercator arithmetic). `HeatMap` only counts map drawings.
- IEEE-754 rounding. Numbers read from strings and means are exact reals, and `NaN` is `None`.
- General `Number()` parsing. The raw `lat`/`long` strings are taken as already-read optional reals. `parseFloat` and unary `+` are modelled only on what remains after the character-deleting regular expressions, where no exponent, sign other than `-`, or white space can occur.
- Browser events and reading the inputs from the DOM. The checkbox states and the two price bounds are parameters of `UpdateFilteredData`. A number input yields a valid number or the empty string, which unary `+` reads as 0; so the bounds are plain reals.
- Dashboard.CreateCombinedFilters: records are modelled as values. In `control.js`, the views share the record objects with the controller. The correction pass is written in place there and here returns the corrected sequence, which becomes both `originalData` and `filteredData`.
- ScatterPlot.Scatter.constructor: the `data` and `con` fields, and the scales set by `render`, are not modelled.
- The `scatterPlot copy.js` file is an older copy of the scatter plot and is not part of this model.
- JsStrings.CodeUnitLess: compares characters by code point. The default `sort` of `control.js:56` compares UTF-16 code units, which differs only for characters outside the Basic Multilingual Plane against those in U+E000–U+FFFF.
- HeatMapPlot.Price: a row's price is always a number after the filter. Elsewhere the model reads a missing price as 0 to keep the sort key total.
- HeatMapPlot.HeatMap.Render: requires an empty data layer. `heatMap.js` only calls it from the constructor, where the layer is new.
- BarGraph.AvgDataCount: the rows are 3 per group present after cleaning. A fixed 15 holds only when all five groups occur; the model follows the code.
- The rollup's group order is taken to be first appearance, the order of D3's `rollups`, which matches `groups`.
