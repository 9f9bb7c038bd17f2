/** `groupby(key).agg(...)`: the rows are split into one group per distinct
    key value, in the order the keys first appear, and each group is
    summarised into one aggregated row. */
module Grouping {
  import opened Wrappers
  import opened Seqs
  import opened Stats
  import opened Sales
  import opened Metrics

  /** The two grouping keys: census tract for the map, `year-month` for the chart. */
  datatype GroupKey = ByGeoid | ByYearMonth

  function KeyOf(r: Sale, key: GroupKey): string
  {
    match key
    case ByGeoid => r.geoid
    case ByYearMonth => r.yearMonth
  }

  function HasKey(key: GroupKey, k: string): Sale -> bool { r => KeyOf(r, key) == k }
  function LacksKey(key: GroupKey, k: string): Sale -> bool { r => KeyOf(r, key) != k }

  /** The rows whose key is `k`, in table order. */
  function Group(rows: seq<Sale>, key: GroupKey, k: string): seq<Sale>
  {
    Filter(rows, HasKey(key, k))
  }

  /** The rows whose key is not `k`, in table order. */
  function Rest(rows: seq<Sale>, key: GroupKey, k: string): seq<Sale>
  {
    Filter(rows, LacksKey(key, k))
  }

  /** The groups of `rows`, one per distinct key, ordered by first appearance. */
  function Partition(rows: seq<Sale>, key: GroupKey): (parts: seq<seq<Sale>>)
    ensures forall i | 0 <= i < |parts| :: |parts[i]| > 0
    decreases |rows|
  {
    if rows == [] then []
    else
      var k := KeyOf(rows[0], key);
      [Group(rows, key, k)] + Partition(Rest(rows[1..], key, k), key)
  }

  /** The key shared by the rows of a group. */
  function PartKey(part: seq<Sale>, key: GroupKey): string
    requires |part| > 0
  {
    KeyOf(part[0], key)
  }

  function PartKeys(parts: seq<seq<Sale>>, key: GroupKey): (ks: seq<string>)
    requires forall i | 0 <= i < |parts| :: |parts[i]| > 0
    ensures |ks| == |parts|
    ensures forall i | 0 <= i < |parts| :: ks[i] == PartKey(parts[i], key)
  {
    seq(|parts|, i requires 0 <= i < |parts| => PartKey(parts[i], key))
  }

  /** Total number of rows over all groups. */
  function SumSizes(parts: seq<seq<Sale>>): nat
  {
    if parts == [] then 0 else |parts[0]| + SumSizes(parts[1..])
  }

  // ---- facts about Group and Rest ----

  lemma GroupStartsWithHead(rows: seq<Sale>, key: GroupKey)
    requires |rows| > 0
    ensures Group(rows, key, KeyOf(rows[0], key)) == [rows[0]] + Group(rows[1..], key, KeyOf(rows[0], key))
    ensures Rest(rows, key, KeyOf(rows[0], key)) == Rest(rows[1..], key, KeyOf(rows[0], key))
  {
  }

  lemma GroupSkipsHead(rows: seq<Sale>, key: GroupKey, k: string)
    requires |rows| > 0 && KeyOf(rows[0], key) != k
    ensures Group(rows, key, k) == Group(rows[1..], key, k)
  {
  }

  /** Removing the rows of another key leaves the group of `k` as it was. */
  lemma GroupOfRest(rows: seq<Sale>, key: GroupKey, other: string, k: string)
    requires k != other
    ensures Group(Rest(rows, key, other), key, k) == Group(rows, key, k)
  {
    FilterConjunction(rows, HasKey(key, k), LacksKey(key, other), HasKey(key, k));
  }

  /** Every row either has key `k` or not. */
  lemma {:induction false} SplitSize(rows: seq<Sale>, key: GroupKey, k: string)
    ensures |Group(rows, key, k)| + |Rest(rows, key, k)| == |rows|
    decreases |rows|
  {
    if rows != [] {
      SplitSize(rows[1..], key, k);
    }
  }

  // ---- the properties of Partition ----

  /** Each group holds exactly the rows that carry its key, in table order. */
  lemma {:induction false} PartitionExact(rows: seq<Sale>, key: GroupKey)
    ensures forall i | 0 <= i < |Partition(rows, key)| ::
      Partition(rows, key)[i] == Group(rows, key, PartKey(Partition(rows, key)[i], key))
    decreases |rows|
  {
    if rows != [] {
      var k0 := KeyOf(rows[0], key);
      var rest := Rest(rows[1..], key, k0);
      var parts := Partition(rows, key);
      assert parts == [Group(rows, key, k0)] + Partition(rest, key);
      PartitionExact(rest, key);
      GroupStartsWithHead(rows, key);
      forall i | 0 <= i < |parts|
        ensures parts[i] == Group(rows, key, PartKey(parts[i], key))
      {
        if i > 0 {
          var part := parts[i];
          var k := PartKey(part, key);
          assert part == Group(rest, key, k);
          assert part[0] in rest;
          GroupOfRest(rows[1..], key, k0, k);
          GroupSkipsHead(rows, key, k);
        }
      }
    }
  }

  /** The first group is the head's; the others are the groups of the rows left over. */
  lemma PartitionUnfold(rows: seq<Sale>, key: GroupKey)
    requires rows != []
    ensures var k0 := KeyOf(rows[0], key);
      var later := Partition(Rest(rows[1..], key, k0), key);
      && Partition(rows, key) == [Group(rows, key, k0)] + later
      && PartKeys(Partition(rows, key), key) == [k0] + PartKeys(later, key)
  {
    var k0 := KeyOf(rows[0], key);
    GroupStartsWithHead(rows, key);
    PartKeysCons(Group(rows, key, k0), Partition(Rest(rows[1..], key, k0), key), key);
  }

  lemma PartKeysCons(part: seq<Sale>, later: seq<seq<Sale>>, key: GroupKey)
    requires |part| > 0 && forall i | 0 <= i < |later| :: |later[i]| > 0
    ensures PartKeys([part] + later, key) == [PartKey(part, key)] + PartKeys(later, key)
  {
    var parts := [part] + later;
    var a, b := PartKeys(parts, key), [PartKey(part, key)] + PartKeys(later, key);
    forall i | 0 <= i < |a| ensures a[i] == b[i] {
      if i > 0 {
        assert parts[i] == later[i - 1];
      }
    }
    assert |a| == |b|;
  }

  lemma InRest(rows: seq<Sale>, key: GroupKey, k: string, r: Sale)
    requires r in rows && KeyOf(r, key) != k
    ensures r in Rest(rows, key, k)
  {
    var i :| 0 <= i < |rows| && rows[i] == r;
  }

  lemma FromRest(rows: seq<Sale>, key: GroupKey, k: string, r: Sale)
    requires r in Rest(rows, key, k)
    ensures r in rows && KeyOf(r, key) != k
  {
  }

  /** Every group starts with a row of the table. */
  lemma {:induction false} PartHeadsInRows(rows: seq<Sale>, key: GroupKey)
    ensures forall j | 0 <= j < |Partition(rows, key)| :: Partition(rows, key)[j][0] in rows
    decreases |rows|
  {
    if rows != [] {
      var k0 := KeyOf(rows[0], key);
      var rest := Rest(rows[1..], key, k0);
      PartitionUnfold(rows, key);
      PartHeadsInRows(rest, key);
      var parts := Partition(rows, key);
      forall j | 1 <= j < |parts| ensures parts[j][0] in rows {
        assert parts[j] == Partition(rest, key)[j - 1];
        FromRest(rows[1..], key, k0, parts[j][0]);
      }
    }
  }

  /** No group of the rows left over has the key that was taken out. */
  lemma RestKeysDiffer(rows: seq<Sale>, key: GroupKey, k: string)
    ensures k !in PartKeys(Partition(Rest(rows, key, k), key), key)
  {
    var rest := Rest(rows, key, k);
    var later := Partition(rest, key);
    PartHeadsInRows(rest, key);
    forall j | 0 <= j < |later| ensures PartKey(later[j], key) != k {
      FromRest(rows, key, k, later[j][0]);
    }
  }

  /** No two groups share a key. */
  lemma {:induction false} PartitionKeysDistinct(rows: seq<Sale>, key: GroupKey)
    ensures Distinct(PartKeys(Partition(rows, key), key))
    decreases |rows|
  {
    if rows != [] {
      var k0 := KeyOf(rows[0], key);
      var rest := Rest(rows[1..], key, k0);
      PartitionUnfold(rows, key);
      PartitionKeysDistinct(rest, key);
      RestKeysDiffer(rows[1..], key, k0);
      DistinctCons(k0, PartKeys(Partition(rest, key), key));
    }
  }

  /** Every key occurring in the table is the key of a group. */
  lemma {:induction false} PartitionKeysCoverRows(rows: seq<Sale>, key: GroupKey)
    ensures forall r | r in rows :: KeyOf(r, key) in PartKeys(Partition(rows, key), key)
    decreases |rows|
  {
    if rows != [] {
      var k0 := KeyOf(rows[0], key);
      var rest := Rest(rows[1..], key, k0);
      PartitionUnfold(rows, key);
      PartitionKeysCoverRows(rest, key);
      assert rows == [rows[0]] + rows[1..];
      forall r | r in rows && KeyOf(r, key) != k0
        ensures KeyOf(r, key) in PartKeys(Partition(rest, key), key)
      {
        assert r in rows[1..];
        InRest(rows[1..], key, k0, r);
      }
    }
  }

  lemma PartitionKeysCover(rows: seq<Sale>, key: GroupKey)
    ensures forall i | 0 <= i < |rows| :: KeyOf(rows[i], key) in PartKeys(Partition(rows, key), key)
  {
    PartitionKeysCoverRows(rows, key);
    forall i | 0 <= i < |rows| ensures KeyOf(rows[i], key) in PartKeys(Partition(rows, key), key) {
      assert rows[i] in rows;
    }
  }

  /** Every group's key occurs in the table. */
  lemma PartitionKeysOccur(rows: seq<Sale>, key: GroupKey, j: nat)
    requires j < |Partition(rows, key)|
    ensures exists i | 0 <= i < |rows| :: KeyOf(rows[i], key) == PartKeys(Partition(rows, key), key)[j]
  {
    PartHeadsInRows(rows, key);
    var part := Partition(rows, key)[j];
    var i :| 0 <= i < |rows| && rows[i] == part[0];
  }

  /** The group keys are exactly the distinct keys of the table, each once. */
  lemma PartitionKeysExact(rows: seq<Sale>, key: GroupKey)
    ensures Distinct(PartKeys(Partition(rows, key), key))
    ensures forall i | 0 <= i < |rows| :: KeyOf(rows[i], key) in PartKeys(Partition(rows, key), key)
    ensures forall k | k in PartKeys(Partition(rows, key), key) :: exists i | 0 <= i < |rows| :: KeyOf(rows[i], key) == k
    ensures |Partition(rows, key)| == |set i | 0 <= i < |rows| :: KeyOf(rows[i], key)|
  {
    var ks := PartKeys(Partition(rows, key), key);
    PartitionKeysDistinct(rows, key);
    PartitionKeysCover(rows, key);
    forall k | k in ks
      ensures exists i | 0 <= i < |rows| :: KeyOf(rows[i], key) == k
    {
      var j :| 0 <= j < |ks| && ks[j] == k;
      PartitionKeysOccur(rows, key, j);
    }
    DistinctCardinality(ks);
    assert (set x | x in ks) == (set i | 0 <= i < |rows| :: KeyOf(rows[i], key));
  }

  /** The group sizes add up to the number of rows. */
  lemma {:induction false} PartitionSizes(rows: seq<Sale>, key: GroupKey)
    ensures SumSizes(Partition(rows, key)) == |rows|
    decreases |rows|
  {
    if rows != [] {
      var k0 := KeyOf(rows[0], key);
      var rest := Rest(rows[1..], key, k0);
      var parts := Partition(rows, key);
      assert parts == [Group(rows, key, k0)] + Partition(rest, key);
      assert parts[1..] == Partition(rest, key);
      PartitionSizes(rest, key);
      GroupStartsWithHead(rows, key);
      SplitSize(rows, key, k0);
    }
  }

  // ---- the aggregated rows ----

  /** One census tract on the map: metric value, number of sales and modal sub-region. */
  datatype MapGroup = MapGroup(geoid: string, value: real, count: nat, subGeo: string)

  /** One month on the chart: metric value and modal month and year. */
  datatype ChartGroup = ChartGroup(yearMonth: string, value: real, month: int, year: int)

  function SubGeos(rows: seq<Sale>): (r: seq<string>)
    ensures |r| == |rows| && forall i | 0 <= i < |rows| :: r[i] == rows[i].subGeo
  {
    seq(|rows|, i requires 0 <= i < |rows| => rows[i].subGeo)
  }

  function Months(rows: seq<Sale>): (r: seq<int>)
    ensures |r| == |rows| && forall i | 0 <= i < |rows| :: r[i] == rows[i].month
  {
    seq(|rows|, i requires 0 <= i < |rows| => rows[i].month)
  }

  function Years(rows: seq<Sale>): (r: seq<int>)
    ensures |r| == |rows| && forall i | 0 <= i < |rows| :: r[i] == rows[i].year
  {
    seq(|rows|, i requires 0 <= i < |rows| => rows[i].year)
  }

  /** The three aggregations of one census tract. */
  function MapGroupOf(part: seq<Sale>, m: Metric): MapGroup
    requires |part| > 0
  {
    MapGroup(part[0].geoid, Aggregate(m, part).value, |part|, Mode(SubGeos(part)))
  }

  /** The aggregations of one month. */
  function ChartGroupOf(part: seq<Sale>, m: Metric): ChartGroup
    requires |part| > 0
  {
    ChartGroup(part[0].yearMonth, Aggregate(m, part).value, Mode(Months(part)), Mode(Years(part)))
  }

  /** The grouped frame `filter_data_map` returns. */
  function MapGroups(rows: seq<Sale>, m: Metric): (gs: seq<MapGroup>)
    ensures |gs| == |Partition(rows, ByGeoid)|
    ensures forall i | 0 <= i < |gs| :: gs[i] == MapGroupOf(Partition(rows, ByGeoid)[i], m)
  {
    var parts := Partition(rows, ByGeoid);
    seq(|parts|, i requires 0 <= i < |parts| => MapGroupOf(parts[i], m))
  }

  /** The grouped frame `filter_data_chart` returns. */
  function ChartGroups(rows: seq<Sale>, m: Metric): (gs: seq<ChartGroup>)
    ensures |gs| == |Partition(rows, ByYearMonth)|
    ensures forall i | 0 <= i < |gs| :: gs[i] == ChartGroupOf(Partition(rows, ByYearMonth)[i], m)
  {
    var parts := Partition(rows, ByYearMonth);
    seq(|parts|, i requires 0 <= i < |parts| => ChartGroupOf(parts[i], m))
  }

  function Geoids(gs: seq<MapGroup>): (r: seq<string>)
    ensures |r| == |gs| && forall i | 0 <= i < |gs| :: r[i] == gs[i].geoid
  {
    if gs == [] then [] else [gs[0].geoid] + Geoids(gs[1..])
  }

  function TotalCount(gs: seq<MapGroup>): nat
  {
    if gs == [] then 0 else gs[0].count + TotalCount(gs[1..])
  }

  /** The tracts of the groups are the keys of the partition. */
  lemma MapGroupKeys(rows: seq<Sale>, m: Metric)
    ensures Geoids(MapGroups(rows, m)) == PartKeys(Partition(rows, ByGeoid), ByGeoid)
  {
    var a, b := Geoids(MapGroups(rows, m)), PartKeys(Partition(rows, ByGeoid), ByGeoid);
    assert |a| == |b| && forall i | 0 <= i < |a| :: a[i] == b[i];
  }

  /** One aggregated row per distinct census tract of the filtered rows. */
  lemma MapGroupsOnePerGeoid(rows: seq<Sale>, m: Metric)
    ensures Distinct(Geoids(MapGroups(rows, m)))
    ensures forall i | 0 <= i < |rows| :: rows[i].geoid in Geoids(MapGroups(rows, m))
    ensures forall g | g in Geoids(MapGroups(rows, m)) :: exists i | 0 <= i < |rows| :: rows[i].geoid == g
    ensures |MapGroups(rows, m)| == |set i | 0 <= i < |rows| :: rows[i].geoid|
  {
    var ks := PartKeys(Partition(rows, ByGeoid), ByGeoid);
    MapGroupKeys(rows, m);
    PartitionKeysExact(rows, ByGeoid);
    GeoidKeys(rows, ks);
    GeoidKeySet(rows);
  }

  /** Keys taken by `GEOID` are the rows' tracts. */
  lemma GeoidKeys(rows: seq<Sale>, ks: seq<string>)
    requires forall i | 0 <= i < |rows| :: KeyOf(rows[i], ByGeoid) in ks
    requires forall k | k in ks :: exists i | 0 <= i < |rows| :: KeyOf(rows[i], ByGeoid) == k
    ensures forall i | 0 <= i < |rows| :: rows[i].geoid in ks
    ensures forall k | k in ks :: exists i | 0 <= i < |rows| :: rows[i].geoid == k
  {
  }

  /** The set of keys taken by `GEOID` is the set of the rows' tracts. */
  lemma GeoidKeySet(rows: seq<Sale>)
    ensures (set i | 0 <= i < |rows| :: KeyOf(rows[i], ByGeoid)) == (set i | 0 <= i < |rows| :: rows[i].geoid)
  {
    var a, b := set i | 0 <= i < |rows| :: KeyOf(rows[i], ByGeoid), set i | 0 <= i < |rows| :: rows[i].geoid;
    forall x | x in a ensures x in b {
      var i :| 0 <= i < |rows| && KeyOf(rows[i], ByGeoid) == x;
      assert rows[i].geoid == x;
    }
    forall x | x in b ensures x in a {
      var i :| 0 <= i < |rows| && rows[i].geoid == x;
      assert KeyOf(rows[i], ByGeoid) == x;
    }
    assert a == b;
  }

  /** Each tract's count is the number of filtered rows in that tract, its value is the
      metric over exactly those rows, and its sub-region is their most frequent one. */
  lemma MapGroupsSummarise(rows: seq<Sale>, m: Metric, i: nat)
    requires i < |MapGroups(rows, m)|
    ensures var g := MapGroups(rows, m)[i];
      var tract := Group(rows, ByGeoid, g.geoid);
      && |tract| > 0
      && (forall r | r in tract :: r in rows && r.geoid == g.geoid)
      && (forall j | 0 <= j < |rows| && rows[j].geoid == g.geoid :: rows[j] in tract)
      && g.count == |tract|
      && Aggregate(m, tract) == Some(g.value)
      && g.subGeo == Mode(SubGeos(tract))
    ensures var g := MapGroups(rows, m)[i];
      forall r :: multiset(Group(rows, ByGeoid, g.geoid))[r] == if r.geoid == g.geoid then multiset(rows)[r] else 0
  {
    PartitionExact(rows, ByGeoid);
    var g := MapGroups(rows, m)[i];
    forall r ensures multiset(Group(rows, ByGeoid, g.geoid))[r] == if r.geoid == g.geoid then multiset(rows)[r] else 0 {
      FilterCounts(rows, HasKey(ByGeoid, g.geoid), r);
    }
  }

  lemma {:induction false} TotalCountIsSumSizes(rows: seq<Sale>, m: Metric, parts: seq<seq<Sale>>)
    requires forall i | 0 <= i < |parts| :: |parts[i]| > 0
    ensures TotalCount(seq(|parts|, i requires 0 <= i < |parts| => MapGroupOf(parts[i], m))) == SumSizes(parts)
    decreases |parts|
  {
    if parts != [] {
      var gs := seq(|parts|, i requires 0 <= i < |parts| => MapGroupOf(parts[i], m));
      TotalCountIsSumSizes(rows, m, parts[1..]);
      assert gs[1..] == seq(|parts[1..]|, i requires 0 <= i < |parts[1..]| => MapGroupOf(parts[1..][i], m));
    }
  }

  /** The tract counts add up to the number of filtered rows. */
  lemma MapCountsSumToRows(rows: seq<Sale>, m: Metric)
    ensures TotalCount(MapGroups(rows, m)) == |rows|
  {
    var parts := Partition(rows, ByGeoid);
    TotalCountIsSumSizes(rows, m, parts);
    assert MapGroups(rows, m) == seq(|parts|, i requires 0 <= i < |parts| => MapGroupOf(parts[i], m));
    PartitionSizes(rows, ByGeoid);
  }

  /** With 'Total sales' the metric column is the sale count ('YearBuilt' counted twice is one column). */
  lemma TotalSalesValueIsCount(rows: seq<Sale>, i: nat)
    requires i < |MapGroups(rows, TotalSales)|
    ensures MapGroups(rows, TotalSales)[i].value == MapGroups(rows, TotalSales)[i].count as real
  {
  }

  /** Each month's value is the metric over exactly the rows of that `year-month` key, and
      its month and year are the most frequent ones among those rows. */
  lemma ChartGroupsSummarise(rows: seq<Sale>, m: Metric, i: nat)
    requires i < |ChartGroups(rows, m)|
    ensures var g := ChartGroups(rows, m)[i];
      var month := Group(rows, ByYearMonth, g.yearMonth);
      && |month| > 0
      && (forall r | r in month :: r in rows && r.yearMonth == g.yearMonth)
      && (forall j | 0 <= j < |rows| && rows[j].yearMonth == g.yearMonth :: rows[j] in month)
      && Aggregate(m, month) == Some(g.value)
      && g.month == Mode(Months(month)) && g.year == Mode(Years(month))
  {
    PartitionExact(rows, ByYearMonth);
  }

  function YearMonths(gs: seq<ChartGroup>): (r: seq<string>)
    ensures |r| == |gs| && forall i | 0 <= i < |gs| :: r[i] == gs[i].yearMonth
  {
    seq(|gs|, i requires 0 <= i < |gs| => gs[i].yearMonth)
  }

  /** The months of the groups are the keys of the partition. */
  lemma ChartGroupKeys(rows: seq<Sale>, m: Metric)
    ensures YearMonths(ChartGroups(rows, m)) == PartKeys(Partition(rows, ByYearMonth), ByYearMonth)
  {
  }

  /** One aggregated row per distinct `year-month` key of the filtered rows. */
  lemma ChartGroupsOnePerMonth(rows: seq<Sale>, m: Metric)
    ensures Distinct(YearMonths(ChartGroups(rows, m)))
    ensures forall i | 0 <= i < |rows| :: rows[i].yearMonth in YearMonths(ChartGroups(rows, m))
    ensures forall k | k in YearMonths(ChartGroups(rows, m)) :: exists i | 0 <= i < |rows| :: rows[i].yearMonth == k
    ensures |ChartGroups(rows, m)| == |set i | 0 <= i < |rows| :: rows[i].yearMonth|
  {
    ChartGroupKeys(rows, m);
    PartitionKeysExact(rows, ByYearMonth);
    assert (set i | 0 <= i < |rows| :: KeyOf(rows[i], ByYearMonth)) == (set i | 0 <= i < |rows| :: rows[i].yearMonth);
  }
}
