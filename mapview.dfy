/** `mapper_2D` / `mapper_3D`: the per-tract groups are joined to the tract
    boundaries, then the joined frame gets its formatted value, label and
    choropleth colour columns assigned one after another. */
module MapView {
  import opened Wrappers
  import opened Seqs
  import opened Sales
  import opened Metrics
  import opened Filters
  import opened Grouping
  import opened Colors

  // ---- the join ----

  function InBoundaries(boundaries: set<string>): MapGroup -> bool { (g: MapGroup) => g.geoid in boundaries }

  /** `gdf.merge(df, on='GEOID')` with the boundary table reduced to its GEOID
      keys: an inner join, so a tract without a boundary is dropped. */
  function Join(groups: seq<MapGroup>, boundaries: set<string>): (joined: seq<MapGroup>)
    ensures |joined| <= |groups|
  {
    Filter(groups, InBoundaries(boundaries))
  }

  /** The join keeps exactly the groups whose tract has a boundary, in order, and so
      never has more rows than there are groups. */
  lemma JoinKeepsMatched(groups: seq<MapGroup>, boundaries: set<string>)
    ensures forall g | g in Join(groups, boundaries) :: g in groups && g.geoid in boundaries
    ensures forall i | 0 <= i < |groups| && groups[i].geoid in boundaries :: groups[i] in Join(groups, boundaries)
    ensures forall i | 0 <= i < |groups| && groups[i].geoid !in boundaries :: groups[i] !in Join(groups, boundaries)
    ensures |Join(groups, boundaries)| <= |groups|
    ensures IsSubsequence(Join(groups, boundaries), groups)
  {
    FilterIsSubsequence(groups, InBoundaries(boundaries));
  }

  lemma GeoidsCons(g: MapGroup, gs: seq<MapGroup>)
    ensures Geoids([g] + gs) == [g.geoid] + Geoids(gs)
  {
    assert ([g] + gs)[1..] == gs;
  }

  lemma {:induction false} JoinGeoidsDistinct(groups: seq<MapGroup>, boundaries: set<string>)
    requires Distinct(Geoids(groups))
    ensures Distinct(Geoids(Join(groups, boundaries)))
    decreases |groups|
  {
    if groups != [] {
      var rest, gid := groups[1..], groups[0].geoid;
      assert groups == [groups[0]] + rest;
      GeoidsCons(groups[0], rest);
      var ids, restIds := Geoids(groups), Geoids(rest);
      assert Distinct(restIds) by {
        forall i, j | 0 <= i < j < |restIds| ensures restIds[i] != restIds[j] {
          assert ids[i + 1] == restIds[i] && ids[j + 1] == restIds[j];
        }
      }
      assert gid !in restIds by {
        forall k | 0 <= k < |restIds| ensures restIds[k] != gid {
          assert ids[k + 1] == restIds[k];
        }
      }
      JoinGeoidsDistinct(rest, boundaries);
      var tail := Join(rest, boundaries);
      if gid in boundaries {
        assert Join(groups, boundaries) == [groups[0]] + tail;
        JoinGeoids(rest, boundaries);
        assert gid !in Geoids(tail);
        GeoidsCons(groups[0], tail);
        DistinctCons(gid, Geoids(tail));
      } else {
        assert Join(groups, boundaries) == tail;
      }
    }
  }

  /** The tracts of the join are exactly the grouped tracts that have a boundary. */
  lemma JoinGeoids(gs: seq<MapGroup>, boundaries: set<string>)
    ensures forall g | g in Geoids(Join(gs, boundaries)) :: g in boundaries && g in Geoids(gs)
    ensures forall g | g in Geoids(gs) && g in boundaries :: g in Geoids(Join(gs, boundaries))
  {
    var joined := Join(gs, boundaries);
    JoinKeepsMatched(gs, boundaries);
    forall g | g in Geoids(joined)
      ensures g in boundaries && g in Geoids(gs)
    {
      var j :| 0 <= j < |joined| && joined[j].geoid == g;
      assert joined[j] in gs;
      var k :| 0 <= k < |gs| && gs[k] == joined[j];
      assert Geoids(gs)[k] == g;
    }
    forall g | g in Geoids(gs) && g in boundaries
      ensures g in Geoids(joined)
    {
      var k :| 0 <= k < |gs| && Geoids(gs)[k] == g;
      assert gs[k] in joined;
      var j :| 0 <= j < |joined| && joined[j] == gs[k];
      assert Geoids(joined)[j] == g;
    }
  }

  lemma JoinCount(gs: seq<MapGroup>, rows: seq<Sale>, boundaries: set<string>)
    requires Distinct(Geoids(gs))
    requires forall i | 0 <= i < |rows| :: rows[i].geoid in Geoids(gs)
    requires forall g | g in Geoids(gs) :: exists i | 0 <= i < |rows| :: rows[i].geoid == g
    ensures |Join(gs, boundaries)| == |set i | 0 <= i < |rows| && rows[i].geoid in boundaries :: rows[i].geoid|
  {
    var joined := Join(gs, boundaries);
    JoinGeoidsDistinct(gs, boundaries);
    DistinctCardinality(Geoids(joined));
    JoinGeoids(gs, boundaries);
    var matched := set i | 0 <= i < |rows| && rows[i].geoid in boundaries :: rows[i].geoid;
    var present := set x | x in Geoids(joined);
    forall x | x in present ensures x in matched {
      assert x in Geoids(gs);
      var i :| 0 <= i < |rows| && rows[i].geoid == x;
    }
    forall x | x in matched ensures x in present {
      var i :| 0 <= i < |rows| && rows[i].geoid in boundaries && rows[i].geoid == x;
      assert rows[i].geoid in Geoids(gs);
    }
    assert present == matched;
  }

  /** The map has one row per census tract that has filtered sales and a boundary. */
  lemma MapRowCount(rows: seq<Sale>, m: Metric, boundaries: set<string>)
    ensures |Join(MapGroups(rows, m), boundaries)|
      == |set i | 0 <= i < |rows| && rows[i].geoid in boundaries :: rows[i].geoid|
    ensures |Join(MapGroups(rows, m), boundaries)| <= |MapGroups(rows, m)|
  {
    var gs := MapGroups(rows, m);
    MapGroupsOnePerGeoid(rows, m);
    JoinKeepsMatched(gs, boundaries);
    JoinCount(gs, rows, boundaries);
  }

  // ---- pd.cut(values, bins=4, include_lowest=True) ----

  function MinOf(s: seq<real>): (lo: real)
    requires |s| > 0
    ensures lo in s && forall i | 0 <= i < |s| :: lo <= s[i]
  {
    if |s| == 1 then s[0] else var r := MinOf(s[1..]); if s[0] <= r then s[0] else r
  }

  function MaxOf(s: seq<real>): (hi: real)
    requires |s| > 0
    ensures hi in s && forall i | 0 <= i < |s| :: s[i] <= hi
  {
    if |s| == 1 then s[0] else var r := MaxOf(s[1..]); if s[0] >= r then s[0] else r
  }

  function Abs(x: real): real { if x < 0.0 then -x else x }

  /** The range pd.cut divides: the observed [min, max], or, when every value is the same,
      that value widened by 0.1% of itself (by 0.001 when it is zero) on each side. */
  function CutRange(lo: real, hi: real): (real, real)
  {
    if lo == hi then
      var adj := if lo != 0.0 then 0.001 * Abs(lo) else 0.001;
      (lo - adj, hi + adj)
    else (lo, hi)
  }

  /** The three inner edges of four equal-width bins over [a, b]. */
  function InnerEdges(range: (real, real)): seq<real>
  {
    var (a, b) := range;
    var w := (b - a) / 4.0;
    [a + w, a + 2.0 * w, a + 3.0 * w]
  }

  /** Bins are closed on the right, so a value's bin is the number of inner edges below it;
      the lowest value belongs to the first bin. */
  function BinOf(v: real, edges: seq<real>): nat
    requires |edges| == 3
  {
    (if edges[0] < v then 1 else 0) + (if edges[1] < v then 1 else 0) + (if edges[2] < v then 1 else 0)
  }

  /** The bin index of each value, over the observed range of all of them. */
  function Bins(values: seq<real>): (bins: seq<nat>)
    ensures |bins| == |values|
    ensures forall i | 0 <= i < |bins| :: bins[i] < 4
  {
    if values == [] then []
    else
      var edges := InnerEdges(CutRange(MinOf(values), MaxOf(values)));
      seq(|values|, i requires 0 <= i < |values| => BinOf(values[i], edges))
  }

  /** A larger value never falls in a lower bin. */
  lemma BinsMonotone(values: seq<real>, i: nat, j: nat)
    requires i < |values| && j < |values| && values[i] <= values[j]
    ensures Bins(values)[i] <= Bins(values)[j]
  {
  }

  lemma BinOfEqualWidth(v: real, lo: real, hi: real)
    requires lo < hi && lo <= v <= hi
    ensures var k, w := BinOf(v, InnerEdges((lo, hi))), (hi - lo) / 4.0;
      && (k == 0 <==> v <= lo + w)
      && (k == 1 <==> lo + w < v <= lo + 2.0 * w)
      && (k == 2 <==> lo + 2.0 * w < v <= lo + 3.0 * w)
      && (k == 3 <==> lo + 3.0 * w < v)
  {
  }

  /** With distinct minimum and maximum the bins are [lo, lo+w], (lo+w, lo+2w], (lo+2w, lo+3w],
      (lo+3w, hi] for w = (hi - lo)/4: the minimum falls in the first bin, the maximum in the last. */
  lemma BinsEqualWidth(values: seq<real>, i: nat)
    requires i < |values|
    requires MinOf(values) < MaxOf(values)
    ensures var lo, hi, v, k := MinOf(values), MaxOf(values), values[i], Bins(values)[i];
      var w := (hi - lo) / 4.0;
      && (k == 0 <==> lo <= v <= lo + w)
      && (k == 1 <==> lo + w < v <= lo + 2.0 * w)
      && (k == 2 <==> lo + 2.0 * w < v <= lo + 3.0 * w)
      && (k == 3 <==> lo + 3.0 * w < v <= hi)
    ensures values[i] == MinOf(values) ==> Bins(values)[i] == 0
    ensures values[i] == MaxOf(values) ==> Bins(values)[i] == 3
  {
    var lo, hi := MinOf(values), MaxOf(values);
    assert Bins(values)[i] == BinOf(values[i], InnerEdges((lo, hi)));
    BinOfEqualWidth(values[i], lo, hi);
  }

  /** When all values are equal, the widened range puts every one of them in the second bin. */
  lemma BinsDegenerate(values: seq<real>, i: nat)
    requires i < |values|
    requires MinOf(values) == MaxOf(values)
    ensures Bins(values)[i] == 1
  {
    var lo := MinOf(values);
    assert values[i] == lo;
  }

  function GroupValues(gs: seq<MapGroup>): (vs: seq<real>)
    ensures |vs| == |gs| && forall i | 0 <= i < |gs| :: vs[i] == gs[i].value
  {
    seq(|gs|, i requires 0 <= i < |gs| => gs[i].value)
  }

  /** Each bin's colour: pd.cut's labels are the converted palette, lightest first. */
  function BinColor(bin: nat): Rgb
    requires bin < 4
  {
    Palette[bin]
  }

  /** Higher bins are darker: every component of the colour decreases. */
  lemma HigherBinDarker(k: nat, l: nat)
    requires k < l < 4
    ensures BinColor(l).red < BinColor(k).red && BinColor(l).green < BinColor(k).green && BinColor(l).blue < BinColor(k).blue
  {
  }

  // ---- the joined frame and its column assignments ----

  /** One row of `joined_df`: the group's columns plus the three assigned later. */
  datatype MapRow = MapRow(group: MapGroup, formatted: Option<Formatted>, varLabel: Option<string>, color: Option<Rgb>)

  function RowValues(rows: seq<MapRow>): (vs: seq<real>)
    ensures |vs| == |rows| && forall i | 0 <= i < |rows| :: vs[i] == rows[i].group.value
  {
    seq(|rows|, i requires 0 <= i < |rows| => rows[i].group.value)
  }

  /** `joined_df`: a table whose columns are assigned in place. */
  class JoinedFrame {
    var rows: seq<MapRow>

    /** The merged frame, before any column is added. */
    constructor Merge(groups: seq<MapGroup>, boundaries: set<string>)
      ensures |rows| == |Join(groups, boundaries)|
      ensures forall i | 0 <= i < |rows| :: rows[i] == MapRow(Join(groups, boundaries)[i], None, None, None)
    {
      var joined := Join(groups, boundaries);
      rows := seq(|joined|, i requires 0 <= i < |joined| => MapRow(joined[i], None, None, None));
    }

    /** `joined_df['var_formatted'] = joined_df[column].apply(template.format)`. */
    method AssignFormatted(template: string)
      modifies this
      ensures |rows| == |old(rows)|
      ensures forall i | 0 <= i < |rows| ::
        rows[i] == old(rows)[i].(formatted := Some(Formatted(template, old(rows)[i].group.value)))
    {
      var before := rows;
      rows := seq(|before|, i requires 0 <= i < |before| =>
        before[i].(formatted := Some(Formatted(template, before[i].group.value))));
    }

    /** `joined_df['dashboard_var_label'] = ...`: the same text on every row. */
    method AssignLabel(text: string)
      modifies this
      ensures |rows| == |old(rows)|
      ensures forall i | 0 <= i < |rows| :: rows[i] == old(rows)[i].(varLabel := Some(text))
    {
      var before := rows;
      rows := seq(|before|, i requires 0 <= i < |before| => before[i].(varLabel := Some(text)));
    }

    /** `joined_df['choro_color'] = pd.cut(joined_df[column], bins=4, labels=custom_colors, ...)`;
        pd.cut raises ValueError on an empty column, reported as `ok == false`. */
    method AssignColors() returns (ok: bool)
      modifies this
      ensures ok <==> |old(rows)| > 0
      ensures |rows| == |old(rows)|
      ensures ok ==> forall i | 0 <= i < |rows| ::
        rows[i] == old(rows)[i].(color := Some(BinColor(Bins(RowValues(old(rows)))[i])))
      ensures !ok ==> rows == old(rows)
    {
      if |rows| == 0 {
        return false;
      }
      var before := rows;
      var bins := Bins(RowValues(before));
      rows := seq(|before|, i requires 0 <= i < |before| => before[i].(color := Some(BinColor(bins[i]))));
      ok := true;
    }
  }

  /** The rows of the map layer for the given sales, boundaries and filter state. */
  function Joined(table: seq<Sale>, boundaries: set<string>, st: FilterState): seq<MapGroup>
  {
    Join(MapGroups(FilterMap(table, st), st.metric), boundaries)
  }

  /** The joined frame after its three column assignments: every joined tract with its
      formatted metric value, the given label text, and the colour of its equal-width bin. */
  predicate IsColoredLayer(rows: seq<MapRow>, joined: seq<MapGroup>, m: Metric, text: string)
  {
    && |rows| == |joined|
    && forall i | 0 <= i < |joined| ::
         rows[i] == MapRow(joined[i],
                           Some(Formatted(Registry(m).valueFormat, joined[i].value)),
                           Some(text),
                           Some(BinColor(Bins(GroupValues(joined))[i])))
  }

  /** Builds the joined frame and assigns its three columns; None when no tract is left to bin. */
  method ColoredLayer(table: seq<Sale>, boundaries: set<string>, st: FilterState, text: string)
    returns (layer: Option<seq<MapRow>>)
    ensures var joined := Joined(table, boundaries, st);
      && (layer.Some? <==> |joined| > 0)
      && (layer.Some? ==> IsColoredLayer(layer.value, joined, st.metric, text))
  {
    var groups := MapGroups(FilterMap(table, st), st.metric);
    var frame := new JoinedFrame.Merge(groups, boundaries);
    frame.AssignFormatted(Registry(st.metric).valueFormat);
    frame.AssignLabel(text);
    ghost var beforeColors := frame.rows;
    var ok := frame.AssignColors();
    assert RowValues(beforeColors) == GroupValues(Joined(table, boundaries, st));
    layer := if ok then Some(frame.rows) else None;
  }

  /** The 2D layer: the metric's display label (its template has no placeholder, so
      formatting returns it unchanged) on every joined tract. */
  method Mapper2D(table: seq<Sale>, boundaries: set<string>, st: FilterState) returns (layer: Option<seq<MapRow>>)
    ensures var joined := Joined(table, boundaries, st);
      && (layer.Some? <==> |joined| > 0)
      && (layer.Some? ==> IsColoredLayer(layer.value, joined, st.metric, Registry(st.metric).displayLabel))
  {
    layer := ColoredLayer(table, boundaries, st, Registry(st.metric).displayLabel);
  }

  /** Pixels of extrusion per sale in the 3D view (`get_elevation='YearBuilt * 25'`,
      where the joined `YearBuilt` column is the tract's sale count). */
  const ElevationPerSale: nat := 25

  /** The extruded layer: its rows and each row's height. */
  datatype Extruded = Extruded(rows: seq<MapRow>, elevation: seq<nat>)

  /** Gives every row a height of 25 per sale of its tract, whatever the metric. */
  function Extrude(rows: seq<MapRow>): (e: Extruded)
    ensures e.rows == rows && |e.elevation| == |rows|
    ensures forall i | 0 <= i < |rows| :: e.elevation[i] == ElevationPerSale * rows[i].group.count
  {
    Extruded(rows, seq(|rows|, i requires 0 <= i < |rows| => ElevationPerSale * rows[i].group.count))
  }

  /** The 3D layer: as in 2D, except that the label column is the metric's option text,
      and every joined tract is extruded by its number of sales. */
  method Mapper3D(table: seq<Sale>, boundaries: set<string>, st: FilterState) returns (layer: Option<Extruded>)
    ensures var joined := Joined(table, boundaries, st);
      && (layer.Some? <==> |joined| > 0)
      && (layer.Some? ==>
            && IsColoredLayer(layer.value.rows, joined, st.metric, MetricName(st.metric))
            && |layer.value.elevation| == |joined|
            && forall i | 0 <= i < |joined| :: layer.value.elevation[i] == ElevationPerSale * joined[i].count)
  {
    var colored := ColoredLayer(table, boundaries, st, MetricName(st.metric));
    layer := if colored.Some? then Some(Extrude(colored.value)) else None;
  }

  datatype MapMode = TwoD | ThreeD

  /** The 2D/3D toggle is offered only for the two price metrics; 'Total sales' is always 2D. */
  function ChooseMapMode(m: Metric, requested: MapMode): (mode: MapMode)
    ensures mode == ThreeD <==> (requested == ThreeD && m != TotalSales)
  {
    match m
    case TotalSales => TwoD
    case _ => requested
  }
}
