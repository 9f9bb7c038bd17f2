/** The row filters of `filter_data_map` and `filter_data_chart`: transaction
    year range, construction-vintage range and, in "City/Region" mode,
    sub-region membership. */
module Filters {
  import opened Wrappers
  import opened Sales
  import opened Seqs
  import opened Metrics

  /** The three construction-vintage buckets of the "Year built" slider, in slider order. */
  datatype Vintage = Before2000 | From2000To2010 | From2011To2023

  function VintageName(v: Vintage): string
  {
    match v
    case Before2000 => "<2000"
    case From2000To2010 => "2000-2010"
    case From2011To2023 => "2011-2023"
  }

  /** `year_built_dict[name]`: an unknown bucket name is a KeyError (None). */
  function VintageByName(name: string): (v: Option<Vintage>)
    ensures v.Some? ==> VintageName(v.value) == name
  {
    if name == "<2000" then Some(Before2000)
    else if name == "2000-2010" then Some(From2000To2010)
    else if name == "2011-2023" then Some(From2011To2023)
    else None
  }

  lemma VintageNameRoundTrip(v: Vintage)
    ensures VintageByName(VintageName(v)) == Some(v)
  {
  }

  /** Position on the slider. */
  function Rank(v: Vintage): nat
  {
    match v
    case Before2000 => 0
    case From2000To2010 => 1
    case From2011To2023 => 2
  }

  /** The inclusive construction-year range of one bucket. */
  function Bounds(v: Vintage): (int, int)
  {
    match v
    case Before2000 => (0, 1999)
    case From2000To2010 => (2000, 2010)
    case From2011To2023 => (2011, 2050)
  }

  /** The slider's two ends give the range from the first bound of the lower
      bucket to the second bound of the upper bucket. */
  function VintageRange(vintage: (Vintage, Vintage)): (int, int)
  {
    (Bounds(vintage.0).0, Bounds(vintage.1).1)
  }

  /** Consecutive buckets meet without gap or overlap, so a range with ends in
      slider order covers exactly the years of the buckets between its ends. */
  lemma VintageRangeIsUnionOfBuckets(vintage: (Vintage, Vintage), y: int)
    requires Rank(vintage.0) <= Rank(vintage.1)
    ensures VintageRange(vintage).0 <= y <= VintageRange(vintage).1
        <==> exists v :: Rank(vintage.0) <= Rank(v) <= Rank(vintage.1) && Bounds(v).0 <= y <= Bounds(v).1
  {
    var (lo, hi) := VintageRange(vintage);
    if lo <= y <= hi {
      var v := if y <= 1999 then Before2000 else if y <= 2010 then From2000To2010 else From2011To2023;
      assert Rank(vintage.0) <= Rank(v) <= Rank(vintage.1) && Bounds(v).0 <= y <= Bounds(v).1;
    }
  }

  /** "Entire county" applies no sub-region test; "City/Region" carries the multiselect list. */
  datatype Geography = EntireCounty | CityRegion(selected: seq<string>)

  /** The sidebar state one interaction recomputes from. */
  datatype FilterState = FilterState(
    years: (int, int),
    vintage: (Vintage, Vintage),
    geography: Geography,
    metric: Metric)

  predicate InYears(st: FilterState, r: Sale)
  {
    st.years.0 <= r.year <= st.years.1
  }

  predicate InVintage(st: FilterState, r: Sale)
  {
    VintageRange(st.vintage).0 <= r.yearBuilt <= VintageRange(st.vintage).1
  }

  predicate InRegion(st: FilterState, r: Sale)
  {
    match st.geography
    case EntireCounty => true
    case CityRegion(selected) => r.subGeo in selected
  }

  /** The mask of `filter_data_map`. */
  predicate MapKeep(st: FilterState, r: Sale)
  {
    InYears(st, r) && InVintage(st, r) && InRegion(st, r)
  }

  /** The mask of `filter_data_chart`: the same without the transaction-year test. */
  predicate ChartKeep(st: FilterState, r: Sale)
  {
    InVintage(st, r) && InRegion(st, r)
  }

  function MapMask(st: FilterState): Sale -> bool { r => MapKeep(st, r) }
  function ChartMask(st: FilterState): Sale -> bool { r => ChartKeep(st, r) }
  function YearMask(st: FilterState): Sale -> bool { r => InYears(st, r) }

  /** The rows `filter_data_map` keeps. */
  function FilterMap(table: seq<Sale>, st: FilterState): (rows: seq<Sale>)
    ensures forall r | r in rows :: r in table && MapKeep(st, r)
    ensures forall i | 0 <= i < |table| && MapKeep(st, table[i]) :: table[i] in rows
  {
    Filter(table, MapMask(st))
  }

  /** The rows `filter_data_chart` keeps. */
  function FilterChart(table: seq<Sale>, st: FilterState): (rows: seq<Sale>)
    ensures forall r | r in rows :: r in table && ChartKeep(st, r)
    ensures forall i | 0 <= i < |table| && ChartKeep(st, table[i]) :: table[i] in rows
  {
    Filter(table, ChartMask(st))
  }

  /** Every kept row lies in the year range and in the vintage range [vlo, vhi], where vlo is the
      first bound of the lower bucket and vhi the second bound of the upper one; its sub-region is
      among the selected ones only when the mode is "City/Region". */
  lemma MapFilterPredicates(table: seq<Sale>, st: FilterState, r: Sale)
    requires r in FilterMap(table, st)
    ensures st.years.0 <= r.year <= st.years.1
    ensures Bounds(st.vintage.0).0 <= r.yearBuilt <= Bounds(st.vintage.1).1
    ensures st.geography.CityRegion? ==> r.subGeo in st.geography.selected
  {
  }

  /** The map filter returns a subsequence of the table holding each row exactly as often
      as the table does when the row passes every test, and not at all otherwise. */
  lemma MapFilterExact(table: seq<Sale>, st: FilterState, r: Sale)
    ensures IsSubsequence(FilterMap(table, st), table)
    ensures multiset(FilterMap(table, st))[r] == if MapKeep(st, r) then multiset(table)[r] else 0
  {
    FilterIsSubsequence(table, MapMask(st));
    FilterCounts(table, MapMask(st), r);
  }

  /** In "Entire county" mode the sub-region of a row plays no part. */
  lemma EntireCountyIgnoresRegion(table: seq<Sale>, st: FilterState, r: Sale, other: string)
    requires st.geography == EntireCounty
    ensures MapKeep(st, r) == MapKeep(st, r.(subGeo := other))
    ensures ChartKeep(st, r) == ChartKeep(st, r.(subGeo := other))
  {
  }

  /** "City/Region" with nothing selected keeps no row. */
  lemma EmptySelectionKeepsNothing(table: seq<Sale>, st: FilterState)
    requires st.geography == CityRegion([])
    ensures FilterMap(table, st) == [] && FilterChart(table, st) == []
  {
    FilterNone(table, MapMask(st));
    FilterNone(table, ChartMask(st));
  }

  /** The map's rows are the chart's rows cut down to the year range, so every row
      the map filter keeps the chart filter keeps too, in the same order. */
  lemma MapFilterWithinChartFilter(table: seq<Sale>, st: FilterState)
    ensures FilterMap(table, st) == Filter(FilterChart(table, st), YearMask(st))
    ensures IsSubsequence(FilterMap(table, st), FilterChart(table, st))
    ensures forall r | r in FilterMap(table, st) :: r in FilterChart(table, st)
  {
    FilterConjunction(table, YearMask(st), ChartMask(st), MapMask(st));
    FilterIsSubsequence(FilterChart(table, st), YearMask(st));
  }

  /** The chart filter does not depend on the selected years. */
  lemma ChartFilterIgnoresYears(table: seq<Sale>, st: FilterState, years: (int, int))
    ensures FilterChart(table, st) == FilterChart(table, st.(years := years))
  {
    FilterCongruent(table, ChartMask(st), ChartMask(st.(years := years)));
  }
}
