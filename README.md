# Gwinnett County housing dashboard: the filter-and-aggregate core

`gwinnett_dash.py` is a Streamlit dashboard of residential sales in Gwinnett County. One
interaction does the following.

It reads the sidebar state:
- a transaction-year range;
- a construction-vintage range given as two bucket names;
- the geography mode: "Entire county", or "City/Region" with a multiselect list;
- one of three metrics.

It then computes:
- the map filter: the table cut down to the rows that pass every test;
- per census tract (`GEOID`): the metric value, the number of sales and the modal sub-region;
- an inner join of those tracts to the tract boundaries, and a choropleth colour for each
  tract from four equal-width bins of the metric;
- the chart filter: the same filter without the year test, grouped per `year-month` and
  sorted chronologically, with a title and two year markers;
- the headline KPIs and their change from the first to the last selected year.

This project models that pipeline in Dafny:

| module | models |
|---|---|
| `Colors` | the palette's `#rrggbb` to RGB conversion, with Python's `int(s, 16)` |
| `Sales` | a sale record and its numeric columns |
| `Metrics` | the metric registry `dash_variable_dict` and each metric's aggregation |
| `Filters` | the vintage lookup `year_built_dict`, the sidebar state, and the two row filters |
| `Grouping` | `groupby(key).agg(...)`: the partition by key and the aggregated rows |
| `MapView` | the join, `pd.cut`, the `joined_df` column assignments, the 2D/3D mappers and toggle |
| `ChartView` | the chart frame's column assignments, the sort, the title, the markers and the figure |
| `Kpi` | the KPI values, the year-over-year changes and the two KPI panels |
| `Stats` | the median and `Series.mode` (a most frequent value) |
| `Seqs` | a boolean-mask filter and facts about subsequences |
| `Wrappers` | `Option` |

Pure pandas expressions become functions. These are the masks, `groupby`, `pd.cut`,
`sort_values`, the title chain and the colour comprehension.

The two mappers and the charter assign columns to a frame one after another. So they are
methods on a class (`JoinedFrame`, `ChartFrame`) whose `rows` field they replace. Each method
states the new rows in terms of the old ones.

An operation that raises in Python returns `None`:
- a `KeyError` on a dictionary;
- a `ValueError` from `int(s, 16)`;
- `pd.cut` on an empty column (no tract left after the join);
- a division by zero, or a median of no rows. In numpy these give `inf` or `nan`.

Conventions the model fixes:
- Groups come in the order their keys first appear in the rows.
- `Series.mode` picks the first position holding a most frequent value.
- Medians are exact over `real`; with an even count they are the mean of the two middle values.
- `pd.cut` is modelled in exact reals. This includes its degenerate case: when all values are
  equal, the range is widened by 0.1% of the value on each side (0.001 when it is zero), so
  every value falls in the second bin.
- The boundary file is reduced to its set of `GEOID` keys.

## Model

| member | source | states |
|---|---|---|
| Colors.HexToRgb | gwinnett_dash.py:31-32 | the colour converts exactly when each of its three two-character slices (after stripping `#`) parses, and then every component is in -15..255; otherwise the ValueError is None |
| Colors.NonHexPairFails | gwinnett_dash.py:31-32 | a pair that is not a hexadecimal number, as in `#zz0000`, makes the conversion fail |
| Colors.ParsePalette | gwinnett_dash.py:31-32 | the list converts only when every entry converts; the result has the input's length and order, entry by entry |
| Colors.WellFormedConverts | gwinnett_dash.py:31-32 | `#` plus six hex digits always converts; each component is 16*first+second digit and lies in 0..255 |
| Colors.ToHexRoundTrip | gwinnett_dash.py:31-32 | writing a byte triple as `#rrggbb` and converting it back gives the triple |
| Colors.DarkestConverts | gwinnett_dash.py:27-32 | `#022b3a` converts to (2, 43, 58) |
| Colors.PaletteConverts | gwinnett_dash.py:23-32 | the four palette strings convert, in order, to the four triples that colour the bins |
| Colors.SignedPairAccepted | gwinnett_dash.py:31-32 | `int(pair, 16)` accepts a sign, so `#-f0000` converts to (-15, 0, 0) |
| Metrics.MetricByName | gwinnett_dash.py:87-91 | a name that is found is the option text of the metric found |
| Metrics.MetricNameRoundTrip | gwinnett_dash.py:87-91 | every metric is found under its own option text |
| Metrics.Aggregate | gwinnett_dash.py:88-90 | the aggregate exists for a count, and for a median exactly when there are rows |
| Metrics.AggregateByMetric | gwinnett_dash.py:88-90 | 'Total sales' is the row count; the price metrics are the medians of `price_sf` and `TransferAmount` |
| Metrics.Registry | gwinnett_dash.py:87-91 | only 'Total sales' is a count, and it counts the `YearBuilt` column; the other two metrics are medians |
| Stats.SortRealsSorted | gwinnett_dash.py:274 | the sort behind the median orders the values |
| Stats.SortRealsPermutation | gwinnett_dash.py:274 | that sort keeps exactly the same values |
| Stats.SortReals | gwinnett_dash.py:274 | the sort behind the median keeps the length (ordering and permutation in the two rows above) |
| Stats.Median | gwinnett_dash.py:274 | the median exists exactly for a non-empty column |
| Stats.MedianOfPermutation | gwinnett_dash.py:274 | the median depends only on the multiset of values |
| Stats.MedianBetween | gwinnett_dash.py:274 | the median lies between two values of the column, and is one of them for an odd count |
| Stats.MedianHalves | gwinnett_dash.py:274 | at least half the values (rounded up) are at most the median, and at least half are at least it |
| Stats.ModeIsMostFrequent | gwinnett_dash.py:280 | the mode occurs in the column, nothing occurs more often, and every value before its first occurrence occurs less often |
| Stats.ModeOfConstant | gwinnett_dash.py:280 | a column of one repeated value has that value as its mode |
| Filters.VintageByName | gwinnett_dash.py:140-144 | a bucket name that is found names the bucket found; an unknown name is a KeyError |
| Filters.VintageNameRoundTrip | gwinnett_dash.py:133-144 | every bucket is found under its own slider text |
| Filters.VintageRangeIsUnionOfBuckets | gwinnett_dash.py:252-253 | with ends in slider order, [vlo, vhi] holds exactly the years of the buckets between the ends |
| Filters.FilterMap | gwinnett_dash.py:256-269 | every kept row is in the table and passes the mask; every table row that passes is kept |
| Filters.FilterChart | gwinnett_dash.py:490-499 | the same for the chart mask |
| Filters.MapFilterPredicates | gwinnett_dash.py:248-269 | a kept row has year in the year range and `YearBuilt` in [first bound of the lower bucket, second bound of the upper bucket]; its sub-region is selected when the mode is City/Region |
| Filters.MapFilterExact | gwinnett_dash.py:256-269 | the result is a subsequence of the table and keeps each passing row as often as the table has it, and no other row |
| Filters.EntireCountyIgnoresRegion | gwinnett_dash.py:263-269 | in Entire county mode a row's sub-region changes neither filter's verdict |
| Filters.EmptySelectionKeepsNothing | gwinnett_dash.py:256-262 | City/Region with nothing selected keeps no row in either filter |
| Filters.MapFilterWithinChartFilter | gwinnett_dash.py:256-269 | the map rows are the chart rows cut down by the year test, so every map row is a chart row, in the same order |
| Filters.ChartFilterIgnoresYears | gwinnett_dash.py:480-499 | the chart filter does not depend on the selected years |
| Grouping.PartitionExact | gwinnett_dash.py:272 | each group holds exactly the rows of its key, in table order |
| Grouping.PartitionKeysExact | gwinnett_dash.py:272 | the group keys are distinct, cover every row's key, each comes from a row, and there is one group per distinct key |
| Grouping.PartitionSizes | gwinnett_dash.py:272 | the group sizes add up to the number of rows |
| Grouping.Partition | gwinnett_dash.py:272 | every group is non-empty (its exact rows, keys and sizes in the three rows above) |
| Grouping.MapGroupsOnePerGeoid | gwinnett_dash.py:272-281 | one tract row per distinct `GEOID` of the filtered rows, and every filtered `GEOID` has one |
| Grouping.MapGroupsSummarise | gwinnett_dash.py:272-281 | a tract's rows are exactly the filtered rows with its `GEOID`, each as often as among the filtered rows; its count is their number, its value the metric over them, and its sub-region their mode |
| Grouping.MapCountsSumToRows | gwinnett_dash.py:277 | the tract counts add up to the number of filtered rows |
| Grouping.TotalSalesValueIsCount | gwinnett_dash.py:272-277 | with 'Total sales' the metric column equals the count |
| Grouping.ChartGroupsOnePerMonth | gwinnett_dash.py:502-507 | one chart row per distinct `year-month` of the chart's rows, and every such key has one |
| Grouping.ChartGroupsSummarise | gwinnett_dash.py:502-507 | a month's value is the metric over exactly its rows; its month and year are their modes |
| Grouping.MapGroups | gwinnett_dash.py:272-281 | one aggregated tract row per group of the partition by `GEOID`, in order |
| Grouping.ChartGroups | gwinnett_dash.py:502-507 | one aggregated month row per group of the partition by `year-month`, in order |
| MapView.JoinKeepsMatched | gwinnett_dash.py:297 | the join keeps exactly the tracts that have a boundary and drops the rest, in order, so it has at most as many rows as groups |
| MapView.JoinGeoids | gwinnett_dash.py:297 | the joined tracts are exactly the grouped tracts that have a boundary |
| MapView.JoinGeoidsDistinct | gwinnett_dash.py:297 | the join keeps tracts distinct |
| MapView.MapRowCount | gwinnett_dash.py:272-297 | the map has one row per filtered tract that has a boundary, at most one per group |
| MapView.Join | gwinnett_dash.py:297 | the inner join never has more rows than there are groups (which rows it keeps: JoinKeepsMatched) |
| MapView.Bins | gwinnett_dash.py:322-328 | one bin per value, each one of the four |
| MapView.BinsMonotone | gwinnett_dash.py:322-328 | a larger value never falls in a lower bin |
| MapView.BinOfEqualWidth | gwinnett_dash.py:322-328 | over [lo, hi] the bins are [lo, lo+w], (lo+w, lo+2w], (lo+2w, lo+3w], (lo+3w, hi] |
| MapView.BinsEqualWidth | gwinnett_dash.py:322-328 | the same for a column with min < max, over its [min, max]; the minimum falls in the first bin (`include_lowest`) and the maximum in the last |
| MapView.BinsDegenerate | gwinnett_dash.py:322-328 | when all values are equal, every one falls in the second bin |
| MapView.HigherBinDarker | gwinnett_dash.py:322-328 | a higher bin's colour is darker in every component |
| MapView.JoinedFrame.Merge | gwinnett_dash.py:297 | the joined frame has one row per joined tract, with no column assigned yet |
| MapView.JoinedFrame.AssignFormatted | gwinnett_dash.py:314-315 | every row gets the value template applied to its own metric value; nothing else changes |
| MapView.JoinedFrame.AssignLabel | gwinnett_dash.py:318-319 | every row gets the label; nothing else changes |
| MapView.JoinedFrame.AssignColors | gwinnett_dash.py:322-328 | on a non-empty frame each row gets its bin's colour over the whole column; an empty frame fails and is left as it was |
| MapView.ColoredLayer | gwinnett_dash.py:297-328 | the frame's three column assignments give a layer exactly when some tract is joined; then row i is joined tract i with its formatted value, the given label and its bin's colour |
| MapView.Extrude | gwinnett_dash.py:449-450 | the extruded layer keeps the rows and gives each one a height of 25 times its sale count |
| MapView.Mapper2D | gwinnett_dash.py:287-328 | the layer exists exactly when some tract is joined; then row i is joined tract i with its formatted value, the display label and its bin's colour |
| MapView.Mapper3D | gwinnett_dash.py:384-450 | as in 2D with the metric's option text as label; each tract's height is 25 times its sale count |
| MapView.ChooseMapMode | gwinnett_dash.py:184-193 | the 3D view is used exactly when it is requested and the metric is a price metric |
| ChartView.InsertRow | gwinnett_dash.py:527 | inserting into chronological rows keeps them chronological and adds only the new row |
| ChartView.SortRows | gwinnett_dash.py:527 | the sorted rows are non-decreasing in (year, month) |
| ChartView.SortRowsPermutation | gwinnett_dash.py:527 | the sort is a permutation of the rows |
| ChartView.Lower | gwinnett_dash.py:554-558 | lower-casing keeps the length and leaves no upper-case ASCII letter |
| ChartView.LowerFolds | gwinnett_dash.py:554-558 | each upper-case ASCII letter becomes the same letter in lower case, and every other character is kept |
| ChartView.GenericTitleExactly | gwinnett_dash.py:553-560 | the "For Selected Regions" title is used exactly when City/Region is on and the selection has neither one nor two regions, so an empty multiselect list gets it too |
| ChartView.SpecificTitleMentions | gwinnett_dash.py:553-558 | the county title starts "Countywide "; one or two regions open the title, as "A" or "A & B"; each ends in the lower-cased label |
| ChartView.GenericTitleStartsWithLabel | gwinnett_dash.py:559-560 | the generic title starts with the label as written |
| ChartView.StartMarkerIsJanuary | gwinnett_dash.py:600-617 | the start marker exists exactly for 2020-2024 and is the key of January of the first year |
| ChartView.EndMarkerIsLastMonth | gwinnett_dash.py:608-620 | the end marker exists exactly for 2020-2024 and is the key of the last month with data: December, or March for 2024 |
| ChartView.Annotate | gwinnett_dash.py:519-524 | each group becomes a row carrying its formatted value and the label, in order |
| ChartView.ChartFrame.FromGroups | gwinnett_dash.py:516 | the chart frame has one row per month group, with no column assigned yet |
| ChartView.ChartFrame.AssignFormatted | gwinnett_dash.py:519-520 | every row gets the value template applied to its own value; nothing else changes |
| ChartView.ChartFrame.AssignLabel | gwinnett_dash.py:523-524 | every row gets the label; nothing else changes |
| ChartView.ChartFrame.SortChronologically | gwinnett_dash.py:527 | the frame becomes the chronologically sorted permutation of itself |
| ChartView.PlotlyCharter | gwinnett_dash.py:513-620 | the figure's points are the annotated month groups, rearranged into chronological order; its title, axis format and markers are as chosen above |
| Kpi.Change | gwinnett_dash.py:639-644 | the change exists exactly when the base is non-zero |
| Kpi.ChangeMeaning | gwinnett_dash.py:639-644 | base + base*change is the new value; with a positive base the change is positive exactly when the value grew, and zero exactly when it stayed |
| Kpi.MedianChange | gwinnett_dash.py:641-644 | a median change exists exactly when both years have rows and the first median is non-zero |
| Kpi.MedianChangeMeaning | gwinnett_dash.py:641-644 | a median change is what turns the first year's median into the second's, and with a positive first median it is positive exactly when the median grew |
| Kpi.ComputeKpis | gwinnett_dash.py:626-644 | over the map-filtered rows: the total is their number; the four medians are of YearBuilt, AreaGross, price_sf and TransferAmount; the median vintage exists exactly when the total is positive; the sales change compares the two years' counts; the two price deltas are the median changes of price_sf and TransferAmount between the first and the last selected year |
| Kpi.KpiTotalMatchesMap | gwinnett_dash.py:626-631 | the total-sales KPI equals the sum of the map's tract counts |
| Kpi.CountChangeMeaning | gwinnett_dash.py:639-640 | a change between two counts exists exactly when the first is positive, and is then positive exactly when the second is larger |
| Kpi.SalesChangeMeaning | gwinnett_dash.py:637-640 | the sales change exists exactly when the first year has a kept sale, and is positive exactly when the last year has more |
| Kpi.YearOutsideRangeIsEmpty | gwinnett_dash.py:626-638 | a year outside the selected range has no KPI rows |
| Kpi.SameYearChangesAreZero | gwinnett_dash.py:637-644 | with one selected year every change is zero or absent |
| Kpi.PrimaryKpi | gwinnett_dash.py:646-651 | `KPI_dict[metric][0]`: the count for 'Total sales', the median of the metric's column for the price metrics |
| Kpi.PrimaryKpiIsAggregate | gwinnett_dash.py:626-651 | the headline figure is the selected metric's registry aggregate (count or median of its column) over the map-filtered rows |
| Kpi.SecondaryKpi | gwinnett_dash.py:682-687 | the change panel is shown exactly when the two selected years differ, and then carries that metric's change |
| Kpi.ShownChangeNeedsTwoYears | gwinnett_dash.py:682-687 | the change is hidden exactly when the years are equal; with equal years every change is zero or absent |
| Kpi.ReversedYearsNoChange | gwinnett_dash.py:637-644 | with the first year after the last no row is kept, so no change exists even though the years differ |
| Kpi.OrderedYearsCanChange | gwinnett_dash.py:637-640 | with distinct years in order the change can be non-zero: one 2022 sale and two 2023 sales give a change of 1.0 |

## Left out

- The Streamlit UI is not modelled: sidebar widgets, HTML/CSS, headings and layout columns. The sidebar's choices are the `FilterState` parameter.
- File I/O and caching are not modelled: `read_csv`, `read_file`, `Image.open` and `st.cache_data`. The sales table and the boundary keys are parameters.
- Rendering is not modelled: pydeck view states, layers and tooltips, and plotly styling. Dash pattern, colours and widths of the lines are left out too. The model keeps only what the layers and the figure receive.
- Polygon geometry, and the drop and rename of the duplicated `Sub_geo` column, are not modelled. The boundary table is a set of `GEOID` keys, and the joined row keeps the group's own sub-region.
- `astype(str)` on `GEOID` is not modelled: `GEOID` is a string throughout.
- `Formatted` and `KpiText` keep the format template and the value. The text that Python's `str.format` renders (thousands separators, rounding, percent) is not modelled.
- Floating point is not modelled. Values are exact reals, so float rounding in the median, in `pd.cut`'s equal-width edges and in the changes is not captured.
- Missing values are not modelled. `price_sf.count()` counts non-null values, so the model's sales change, which counts rows, agrees with it only when `price_sf` has no nulls.
- Stats.Mode: `pd.Series.mode` returns every most frequent value, and the source does not pick one. The model picks the first position holding one of them.
- Grouping.Partition: pandas orders groups by sorted key, while the model uses first-appearance order. The chart rows are re-sorted anyway. The map's row order only pairs each tract with its own colour, which the model states per row.
- MapView.Join: pandas' merge orders rows by the boundary table. The model keeps the group order, since the boundary table is only a key set.
- ChartView.SortRows: `sort_values(['year', 'month'])` is stable, but it sorts a frame whose groups pandas has put in sorted key order, while the model's groups come in first-appearance order (see Grouping.Partition). Rows with equal (year, month) can therefore come out in a different order, so only the ordering and the permutation are claimed.
- ChartView.LowerChar: `str.lower` is modelled for ASCII letters only.
- Colors.ParseHexSlice: `int(s, 16)` is modelled over ASCII. Python also accepts non-ASCII digits and whitespace, which the model rejects. On a slice of at most two characters, the `0x` prefix and underscores cannot form a valid number, so leaving them out loses nothing.
- Kpi.Change: numpy gives `inf` or `nan` for a zero base, and `nan` for an empty median. The model has None for both.
