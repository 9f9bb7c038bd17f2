/** One row of the transaction table (one residential sale) and its numeric columns. */
module Sales {

  /** A sale: transaction year, the `year-month` key (e.g. "2022-6"), month,
      construction year, price (`TransferAmount`), price per square foot
      (`price_sf`), floor area (`AreaGross`), census tract (`GEOID`) and
      sub-region (`Sub_geo`). */
  datatype Sale = Sale(
    year: int,
    yearMonth: string,
    month: int,
    yearBuilt: int,
    price: real,
    priceSf: real,
    area: real,
    geoid: string,
    subGeo: string)

  /** The numeric columns a metric or a KPI reads. */
  datatype Column = YearBuilt | PriceSf | TransferAmount | AreaGross

  function ColumnValue(r: Sale, c: Column): real
  {
    match c
    case YearBuilt => r.yearBuilt as real
    case PriceSf => r.priceSf
    case TransferAmount => r.price
    case AreaGross => r.area
  }

  /** The column `c` of a table, row by row. */
  function ColumnValues(rows: seq<Sale>, c: Column): (vs: seq<real>)
    ensures |vs| == |rows|
    ensures forall i | 0 <= i < |rows| :: vs[i] == ColumnValue(rows[i], c)
  {
    seq(|rows|, i requires 0 <= i < |rows| => ColumnValue(rows[i], c))
  }
}
