/** The headline figures above the chart: medians and the sale count of the map's
    filtered rows, and the change from the first to the last selected year. */
module Kpi {
  import opened Wrappers
  import opened Seqs
  import opened Sales
  import opened Stats
  import opened Metrics
  import opened Filters
  import opened Grouping

  /** `kpi_df[kpi_df['year'] == y]`. */
  function InYear(y: int): Sale -> bool { (r: Sale) => r.year == y }

  function YearRows(rows: seq<Sale>, y: int): seq<Sale>
  {
    Filter(rows, InYear(y))
  }

  /** `(b - a) / a`; None where dividing by a zero base gives no finite number. */
  function Change(a: real, b: real): (d: Option<real>)
    ensures d.Some? <==> a != 0.0
  {
    if a == 0.0 then None else Some((b - a) / a)
  }

  /** The change is what turns the base into the new value, and with a positive base it is
      positive exactly when the value grew and zero exactly when it stayed. */
  lemma ChangeMeaning(a: real, b: real)
    requires a != 0.0
    ensures a + a * Change(a, b).value == b
    ensures a > 0.0 ==> (Change(a, b).value > 0.0 <==> b > a)
    ensures a > 0.0 ==> (Change(a, b).value == 0.0 <==> b == a)
  {
    var d := (b - a) / a;
    assert a * d == b - a;
    if a > 0.0 {
      if d > 0.0 { assert a * d > 0.0; }
      if b > a { assert a * d > 0.0; }
    }
  }

  /** The change between the two years' medians of one column; None when either year has
      no rows (a NaN median) or the first median is zero. */
  function MedianChange(first: seq<Sale>, second: seq<Sale>, c: Column): (d: Option<real>)
    ensures d.Some? <==> |first| > 0 && |second| > 0 && Median(ColumnValues(first, c)).value != 0.0
  {
    var a := Median(ColumnValues(first, c));
    var b := Median(ColumnValues(second, c));
    if a.Some? && b.Some? then Change(a.value, b.value) else None
  }

  /** A median change is what turns the first year's median into the second's; with a
      positive first median it is positive exactly when the median grew. */
  lemma MedianChangeMeaning(first: seq<Sale>, second: seq<Sale>, c: Column)
    requires MedianChange(first, second, c).Some?
    ensures var a, b, d := Median(ColumnValues(first, c)).value, Median(ColumnValues(second, c)).value,
                           MedianChange(first, second, c).value;
      && a + a * d == b
      && (a > 0.0 ==> (d > 0.0 <==> b > a))
  {
    ChangeMeaning(Median(ColumnValues(first, c)).value, Median(ColumnValues(second, c)).value);
  }

  /** Every KPI value; a None median is the NaN of an empty selection. */
  datatype Kpis = Kpis(
    medianVintage: Option<real>,
    medianSize: Option<real>,
    totalSales: nat,
    medianPriceSf: Option<real>,
    medianPrice: Option<real>,
    deltaTotalSales: Option<real>,
    deltaPriceSf: Option<real>,
    deltaPrice: Option<real>)

  /** The KPIs of the rows the map filter keeps. */
  function ComputeKpis(table: seq<Sale>, st: FilterState): (k: Kpis)
    ensures k.totalSales == |FilterMap(table, st)|
    ensures k.medianVintage.Some? <==> k.totalSales > 0
    ensures k.medianVintage == Median(ColumnValues(FilterMap(table, st), YearBuilt))
    ensures k.medianSize == Median(ColumnValues(FilterMap(table, st), AreaGross))
    ensures k.medianPriceSf == Median(ColumnValues(FilterMap(table, st), PriceSf))
    ensures k.medianPrice == Median(ColumnValues(FilterMap(table, st), TransferAmount))
    ensures k.deltaTotalSales == SalesChange(FilterMap(table, st), st.years)
    ensures var rows := FilterMap(table, st);
      && k.deltaPriceSf == MedianChange(YearRows(rows, st.years.0), YearRows(rows, st.years.1), PriceSf)
      && k.deltaPrice == MedianChange(YearRows(rows, st.years.0), YearRows(rows, st.years.1), TransferAmount)
  {
    var rows := FilterMap(table, st);
    var first := YearRows(rows, st.years.0);
    var second := YearRows(rows, st.years.1);
    Kpis(
      Median(ColumnValues(rows, YearBuilt)),
      Median(ColumnValues(rows, AreaGross)),
      |rows|,
      Median(ColumnValues(rows, PriceSf)),
      Median(ColumnValues(rows, TransferAmount)),
      SalesChange(rows, st.years),
      MedianChange(first, second, PriceSf),
      MedianChange(first, second, TransferAmount))
  }

  /** The total-sales KPI agrees with the map: it is the sum of the per-tract counts. */
  lemma KpiTotalMatchesMap(table: seq<Sale>, st: FilterState)
    ensures ComputeKpis(table, st).totalSales == TotalCount(MapGroups(FilterMap(table, st), st.metric))
  {
    MapCountsSumToRows(FilterMap(table, st), st.metric);
  }

  /** The change in the number of sales from the first to the last selected year. */
  function SalesChange(rows: seq<Sale>, years: (int, int)): Option<real>
  {
    Change(|YearRows(rows, years.0)| as real, |YearRows(rows, years.1)| as real)
  }

  /** The change between two counts exists exactly when the first is positive, and is then
      positive exactly when the second count is larger. */
  lemma CountChangeMeaning(a: nat, b: nat)
    ensures var d := Change(a as real, b as real);
      && (d.Some? <==> a > 0)
      && (d.Some? ==> a as real + a as real * d.value == b as real)
      && (d.Some? ==> (d.value > 0.0 <==> b > a))
  {
    if a > 0 {
      ChangeMeaning(a as real, b as real);
    }
  }

  /** The sales change compares the numbers of kept sales in the two selected years: it exists
      exactly when the first year has a sale, and then it is positive exactly when the last
      year has more. */
  lemma SalesChangeMeaning(rows: seq<Sale>, years: (int, int))
    ensures var a, b := |YearRows(rows, years.0)|, |YearRows(rows, years.1)|;
      var d := SalesChange(rows, years);
      && (d.Some? <==> a > 0)
      && (d.Some? ==> a as real + a as real * d.value == b as real)
      && (d.Some? ==> (d.value > 0.0 <==> b > a))
  {
    CountChangeMeaning(|YearRows(rows, years.0)|, |YearRows(rows, years.1)|);
  }

  /** A year outside the selected range has no rows in the KPI frame. */
  lemma YearOutsideRangeIsEmpty(table: seq<Sale>, st: FilterState, y: int)
    requires y < st.years.0 || y > st.years.1
    ensures YearRows(FilterMap(table, st), y) == []
  {
    var rows := FilterMap(table, st);
    forall i | 0 <= i < |rows| ensures !InYear(y)(rows[i]) {
      assert rows[i] in rows;
    }
    FilterNone(rows, InYear(y));
  }

  /** With a single selected year the changes carry no information: each is zero or absent. */
  lemma SameYearChangesAreZero(table: seq<Sale>, st: FilterState)
    requires st.years.0 == st.years.1
    ensures var k := ComputeKpis(table, st);
      && (k.deltaTotalSales.Some? ==> k.deltaTotalSales.value == 0.0)
      && (k.deltaPriceSf.Some? ==> k.deltaPriceSf.value == 0.0)
      && (k.deltaPrice.Some? ==> k.deltaPrice.value == 0.0)
  {
  }

  /** With the years in reverse order the map filter keeps nothing, so no change exists. */
  lemma ReversedYearsNoChange(table: seq<Sale>, st: FilterState)
    requires st.years.0 > st.years.1
    ensures var k := ComputeKpis(table, st);
      k.deltaTotalSales.None? && k.deltaPriceSf.None? && k.deltaPrice.None?
  {
    forall i | 0 <= i < |table| ensures !MapMask(st)(table[i]) {
    }
    FilterNone(table, MapMask(st));
  }

  /** With distinct years in slider order the change can be non-zero: one sale in 2022 and two
      in 2023 double the number of sales. */
  lemma OrderedYearsCanChange()
    ensures var a := Sale(2022, "2022-5", 5, 1995, 300000.0, 150.0, 2000.0, "13135050100", "Dacula");
      var b := Sale(2023, "2023-5", 5, 1995, 310000.0, 155.0, 2000.0, "13135050100", "Dacula");
      var st := FilterState((2022, 2023), (Before2000, From2011To2023), EntireCounty, TotalSales);
      ComputeKpis([a, b, b], st).deltaTotalSales == Some(1.0)
  {
    var a := Sale(2022, "2022-5", 5, 1995, 300000.0, 150.0, 2000.0, "13135050100", "Dacula");
    var b := Sale(2023, "2023-5", 5, 1995, 310000.0, 155.0, 2000.0, "13135050100", "Dacula");
    var st := FilterState((2022, 2023), (Before2000, From2011To2023), EntireCounty, TotalSales);
    assert [a, b, b][1..] == [b, b] && [b, b][1..] == [b] && [b][1..] == [];
    var rows := [a, b, b];
    var keep, first, second := MapMask(st), InYear(2022), InYear(2023);
    assert keep(a) && keep(b) && first(a) && !first(b) && !second(a) && second(b);
    assert Filter([b], keep) == [b] && Filter([b, b], keep) == [b, b];
    assert FilterMap(rows, st) == rows;
    assert Filter([b], first) == [] && Filter([b, b], first) == [];
    assert |YearRows(rows, 2022)| == 1;
    assert Filter([b], second) == [b] && Filter([b, b], second) == [b, b];
    assert |YearRows(rows, 2023)| == 2;
    assert SalesChange(rows, st.years) == Some(1.0);
  }

  /** The text of one KPI: a format template and the value it renders. */
  datatype KpiText = KpiText(template: string, value: Option<real>)

  /** `KPI_dict[metric][0]`: the primary figure shown for the selected metric. */
  function PrimaryKpi(k: Kpis, m: Metric): (t: KpiText)
    ensures m == TotalSales ==> t.value == Some(k.totalSales as real)
    ensures m == PricePerSf ==> t.value == k.medianPriceSf
    ensures m == PriceOverall ==> t.value == k.medianPrice
  {
    match m
    case TotalSales => KpiText("{:,.0f}", Some(k.totalSales as real))
    case PricePerSf => KpiText("${:.0f}", k.medianPriceSf)
    case PriceOverall => KpiText("${:,.0f}", k.medianPrice)
  }

  /** The headline figure is the selected metric's registry aggregate over the rows the map
      filter keeps: the same aggregation the map applies per tract, taken over all its rows. */
  lemma PrimaryKpiIsAggregate(table: seq<Sale>, st: FilterState)
    ensures PrimaryKpi(ComputeKpis(table, st), st.metric).value == Aggregate(st.metric, FilterMap(table, st))
  {
    AggregateByMetric(FilterMap(table, st));
  }

  /** The second panel: the year-over-year change of the selected metric, or the note that a
      single year has none. */
  datatype ChangePanel = NoComparison | YearChange(fromYear: int, toYear: int, change: KpiText)

  function ChangeOf(k: Kpis, m: Metric): Option<real>
  {
    match m
    case TotalSales => k.deltaTotalSales
    case PricePerSf => k.deltaPriceSf
    case PriceOverall => k.deltaPrice
  }

  function SecondaryKpi(k: Kpis, m: Metric, years: (int, int)): (p: ChangePanel)
    ensures p.YearChange? <==> years.0 != years.1
    ensures p.YearChange? ==> p == YearChange(years.0, years.1, KpiText("{:.1%}", ChangeOf(k, m)))
  {
    if years.0 != years.1 then YearChange(years.0, years.1, KpiText("{:.1%}", ChangeOf(k, m)))
    else NoComparison
  }

  /** A change is shown only when it can be other than zero. */
  lemma ShownChangeNeedsTwoYears(table: seq<Sale>, st: FilterState)
    ensures var k := ComputeKpis(table, st);
      && (SecondaryKpi(k, st.metric, st.years).NoComparison? <==> st.years.0 == st.years.1)
      && (st.years.0 == st.years.1 && ChangeOf(k, st.metric).Some? ==> ChangeOf(k, st.metric).value == 0.0)
  {
    var k := ComputeKpis(table, st);
    if st.years.0 == st.years.1 {
      SameYearChangesAreZero(table, st);
    }
  }
}
