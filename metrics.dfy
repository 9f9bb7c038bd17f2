/** The metric registry `dash_variable_dict`: metric name to source column,
    aggregation, value format, display label and axis format. */
module Metrics {
  import opened Wrappers
  import opened Sales
  import opened Stats

  /** The three radio-button options. */
  datatype Metric = TotalSales | PricePerSf | PriceOverall

  datatype Aggregation = Count | MedianOf

  datatype Descriptor = Descriptor(
    column: Column,
    aggregation: Aggregation,
    valueFormat: string,
    displayLabel: string,
    axisFormat: string)

  /** A string format template applied to a value (`template.format(value)`); the text it
      renders to is not modelled. */
  datatype Formatted = Formatted(template: string, value: real)

  /** The option text of each metric. */
  function MetricName(m: Metric): string
  {
    match m
    case TotalSales => "Total sales"
    case PricePerSf => "Price (per SF)"
    case PriceOverall => "Price (overall)"
  }

  /** Looking a metric up by its option text: a name outside the registry is a KeyError (None). */
  function MetricByName(name: string): (m: Option<Metric>)
    ensures m.Some? ==> MetricName(m.value) == name
  {
    if name == "Total sales" then Some(TotalSales)
    else if name == "Price (per SF)" then Some(PricePerSf)
    else if name == "Price (overall)" then Some(PriceOverall)
    else None
  }

  /** Every metric is found under its own name. */
  lemma MetricNameRoundTrip(m: Metric)
    ensures MetricByName(MetricName(m)) == Some(m)
  {
  }

  /** The registry entries. 'Total sales' counts the `YearBuilt` column, the two
      price metrics take the median of their column. */
  function Registry(m: Metric): (d: Descriptor)
    ensures d.aggregation == Count <==> m == TotalSales
    ensures d.aggregation == Count ==> d.column == YearBuilt
  {
    match m
    case TotalSales => Descriptor(YearBuilt, Count, "{:,.0f}", "Total sales", ",.0f")
    case PricePerSf => Descriptor(PriceSf, MedianOf, "${:.2f}", "Median price (per SF)", "$.0f")
    case PriceOverall => Descriptor(TransferAmount, MedianOf, "${:,.0f}", "Median price (overall)", "$,.0f")
  }

  /** The metric's aggregation applied to its column of `rows`: the row count,
      or the median, which is undefined (None) for no rows. */
  function Aggregate(m: Metric, rows: seq<Sale>): (v: Option<real>)
    ensures v.Some? <==> (Registry(m).aggregation == Count || |rows| > 0)
  {
    match Registry(m).aggregation
    case Count => Some(|rows| as real)
    case MedianOf => Median(ColumnValues(rows, Registry(m).column))
  }

  /** 'Total sales' is the row count and the two price metrics are medians of their column. */
  lemma AggregateByMetric(rows: seq<Sale>)
    ensures Aggregate(TotalSales, rows) == Some(|rows| as real)
    ensures Aggregate(PricePerSf, rows) == Median(ColumnValues(rows, PriceSf))
    ensures Aggregate(PriceOverall, rows) == Median(ColumnValues(rows, TransferAmount))
  {
  }
}
