/** `plotly_charter`: the per-month groups get their formatted value and label
    columns, are sorted chronologically and drawn as a line, with a title chosen
    by the selected regions and two dashed markers at the ends of the year range. */
module ChartView {
  import opened Wrappers
  import opened Sales
  import opened Metrics
  import opened Filters
  import opened Grouping

  // ---- rows and their chronological sort ----

  /** One row of the chart frame: the group's columns plus the two assigned later. */
  datatype ChartRow = ChartRow(group: ChartGroup, formatted: Option<Formatted>, varLabel: Option<string>)

  /** `(year, month)` of `a` is lexicographically at most that of `b`. */
  predicate NotLater(a: ChartRow, b: ChartRow)
  {
    a.group.year < b.group.year || (a.group.year == b.group.year && a.group.month <= b.group.month)
  }

  predicate Chronological(rows: seq<ChartRow>)
  {
    forall i, j | 0 <= i < j < |rows| :: NotLater(rows[i], rows[j])
  }

  /** Inserts a row in front of the first row that it does not follow. */
  function InsertRow(x: ChartRow, rows: seq<ChartRow>): (r: seq<ChartRow>)
    requires Chronological(rows)
    ensures |r| == |rows| + 1
    ensures forall k | 0 <= k < |r| :: r[k] == x || r[k] in rows
    ensures Chronological(r)
    decreases |rows|
  {
    if rows == [] || NotLater(x, rows[0]) then [x] + rows
    else
      var rest := InsertRow(x, rows[1..]);
      assert forall k | 0 <= k < |rest| :: NotLater(rows[0], rest[k]);
      [rows[0]] + rest
  }

  lemma {:induction false} InsertRowCount(x: ChartRow, rows: seq<ChartRow>)
    requires Chronological(rows)
    ensures multiset(InsertRow(x, rows)) == multiset(rows) + multiset{x}
    decreases |rows|
  {
    if rows != [] && !NotLater(x, rows[0]) {
      assert rows == [rows[0]] + rows[1..];
      InsertRowCount(x, rows[1..]);
    }
  }

  /** `df.sort_values(['year', 'month'])`. */
  function SortRows(rows: seq<ChartRow>): (r: seq<ChartRow>)
    ensures |r| == |rows|
    ensures Chronological(r)
    decreases |rows|
  {
    if rows == [] then [] else InsertRow(rows[0], SortRows(rows[1..]))
  }

  /** The sort rearranges the rows and neither adds nor drops any. */
  lemma {:induction false} SortRowsPermutation(rows: seq<ChartRow>)
    ensures multiset(SortRows(rows)) == multiset(rows)
    decreases |rows|
  {
    if rows != [] {
      SortRowsPermutation(rows[1..]);
      InsertRowCount(rows[0], SortRows(rows[1..]));
      assert rows == [rows[0]] + rows[1..];
    }
  }

  // ---- the title ----

  function LowerChar(c: char): (d: char)
    ensures !('A' <= d <= 'Z')
    ensures !('A' <= c <= 'Z') ==> d == c
    ensures 'A' <= c <= 'Z' ==> d as int - 'a' as int == c as int - 'A' as int
  {
    if 'A' <= c <= 'Z' then (c as int + 32) as char else c
  }

  /** `str.lower` over ASCII letters. */
  function Lower(s: string): (t: string)
    ensures |t| == |s|
    ensures forall i | 0 <= i < |t| :: !('A' <= t[i] <= 'Z')
  {
    seq(|s|, i requires 0 <= i < |s| => LowerChar(s[i]))
  }

  /** Lower-casing turns each upper-case ASCII letter into the same letter in lower case and
      keeps every other character. */
  lemma LowerFolds(s: string)
    ensures forall i | 0 <= i < |s| && !('A' <= s[i] <= 'Z') :: Lower(s)[i] == s[i]
    ensures forall i | 0 <= i < |s| && 'A' <= s[i] <= 'Z' ::
      Lower(s)[i] as int - 'a' as int == s[i] as int - 'A' as int
  {
  }

  const TitleSuffix: string := " For Selected Regions"

  predicate EndsWith(s: string, suffix: string)
  {
    |suffix| <= |s| && s[|s| - |suffix|..] == suffix
  }

  predicate StartsWith(s: string, prefix: string)
  {
    |prefix| <= |s| && s[..|prefix|] == prefix
  }

  /** The chart's title: "Countywide <label>" for the entire county, the region names before
      the lower-cased label for one or two regions, and "<Label> For Selected Regions"
      otherwise (an empty multiselect list is not the entire county's empty string). */
  function ChartTitle(g: Geography, m: Metric): string
  {
    var lbl := Registry(m).displayLabel;
    match g
    case EntireCounty => "Countywide " + Lower(lbl)
    case CityRegion(sel) =>
      if |sel| == 1 then sel[0] + " " + Lower(lbl)
      else if |sel| == 2 then sel[0] + " & " + sel[1] + " " + Lower(lbl)
      else lbl + TitleSuffix
  }

  lemma EndsWithConcat(a: string, b: string)
    ensures EndsWith(a + b, b)
  {
    assert (a + b)[|a + b| - |b|..] == b;
  }

  lemma StartsWithConcat(a: string, b: string)
    ensures StartsWith(a + b, a)
  {
    assert (a + b)[..|a|] == a;
  }

  /** A title ending in a lower-cased label of at least seven characters cannot end in the
      generic suffix, whose seventh character from the end is the capital 'R'. */
  lemma LowerTailIsNotSuffix(p: string, lbl: string)
    requires |lbl| >= 7
    ensures !EndsWith(p + Lower(lbl), TitleSuffix)
  {
    var t := p + Lower(lbl);
    assert t[|t| - 7] == Lower(lbl)[|lbl| - 7];
  }

  /** The generic title is used exactly when the region filter is on and the selection holds
      neither one nor two regions. */
  lemma GenericTitleExactly(g: Geography, m: Metric)
    ensures EndsWith(ChartTitle(g, m), TitleSuffix)
      <==> (g.CityRegion? && |g.selected| != 1 && |g.selected| != 2)
  {
    var lbl := Registry(m).displayLabel;
    match g
    case EntireCounty =>
      LowerTailIsNotSuffix("Countywide ", lbl);
    case CityRegion(sel) =>
      if |sel| == 1 {
        LowerTailIsNotSuffix(sel[0] + " ", lbl);
      } else if |sel| == 2 {
        LowerTailIsNotSuffix(sel[0] + " & " + sel[1] + " ", lbl);
      } else {
        EndsWithConcat(lbl, TitleSuffix);
      }
  }

  /** Every specific title ends with the lower-cased label and names the selected regions,
      in selection order, at its start. */
  lemma SpecificTitleMentions(g: Geography, m: Metric)
    ensures var lbl, t := Registry(m).displayLabel, ChartTitle(g, m);
      && (g.EntireCounty? ==> StartsWith(t, "Countywide ") && EndsWith(t, Lower(lbl)))
      && (g.CityRegion? && |g.selected| == 1 ==> StartsWith(t, g.selected[0]) && EndsWith(t, Lower(lbl)))
      && (g.CityRegion? && |g.selected| == 2 ==>
            StartsWith(t, g.selected[0] + " & " + g.selected[1]) && EndsWith(t, Lower(lbl)))
  {
    var low := Lower(Registry(m).displayLabel);
    match g
    case EntireCounty =>
      StartsWithConcat("Countywide ", low);
      EndsWithConcat("Countywide ", low);
    case CityRegion(sel) =>
      if |sel| == 1 {
        assert sel[0] + " " + low == sel[0] + (" " + low);
        StartsWithConcat(sel[0], " " + low);
        EndsWithConcat(sel[0] + " ", low);
      } else if |sel| == 2 {
        var names := sel[0] + " & " + sel[1];
        assert names + " " + low == names + (" " + low);
        StartsWithConcat(names, " " + low);
        EndsWithConcat(names + " ", low);
      }
  }

  /** The generic title starts with the label as written. */
  lemma GenericTitleStartsWithLabel(g: Geography, m: Metric)
    requires g.CityRegion? && |g.selected| != 1 && |g.selected| != 2
    ensures StartsWith(ChartTitle(g, m), Registry(m).displayLabel)
  {
    StartsWithConcat(Registry(m).displayLabel, TitleSuffix);
  }

  // ---- the year-range markers ----

  function DigitText(d: nat): char
    requires d < 10
  {
    "0123456789"[d]
  }

  /** `str(n)` for a natural number. */
  function DecimalText(n: nat): (s: string)
    ensures |s| > 0
  {
    if n < 10 then [DigitText(n)] else DecimalText(n / 10) + [DigitText(n % 10)]
  }

  /** The `year-month` key of a month, as the data writes it (no zero padding). */
  function MonthKey(year: nat, month: nat): string
  {
    DecimalText(year) + "-" + DecimalText(month)
  }

  /** `year_start`: the dashed line at the start of the first selected year. */
  const YearStart: map<int, string> :=
    map[2020 := "2020-1", 2021 := "2021-1", 2022 := "2022-1", 2023 := "2023-1", 2024 := "2024-1"]

  /** `year_end`: the dashed line at the end of the last selected year; the data ends in March 2024. */
  const YearEnd: map<int, string> :=
    map[2020 := "2020-12", 2021 := "2021-12", 2022 := "2022-12", 2023 := "2023-12", 2024 := "2024-3"]

  /** A year outside the slider's options is a KeyError (None). */
  function StartMarker(year: int): Option<string>
  {
    if year in YearStart then Some(YearStart[year]) else None
  }

  function EndMarker(year: int): Option<string>
  {
    if year in YearEnd then Some(YearEnd[year]) else None
  }

  /** The last month with data in a year. */
  function LastMonth(year: int): nat
  {
    if year == 2024 then 3 else 12
  }

  /** The start marker exists exactly for the slider's years 2020-2024 and is January of the year. */
  lemma StartMarkerIsJanuary(year: int)
    ensures StartMarker(year).Some? <==> 2020 <= year <= 2024
    ensures 2020 <= year <= 2024 ==> StartMarker(year) == Some(MonthKey(year, 1))
  {
    if 2020 <= year <= 2024 {
      YearText(year);
      assert DecimalText(1) == "1";
      if year == 2020 {
        assert MonthKey(year, 1) == "2020-1";
      } else if year == 2021 {
        assert MonthKey(year, 1) == "2021-1";
      } else if year == 2022 {
        assert MonthKey(year, 1) == "2022-1";
      } else if year == 2023 {
        assert MonthKey(year, 1) == "2023-1";
      } else {
        assert MonthKey(year, 1) == "2024-1";
      }
    }
  }

  /** The end marker exists exactly for the slider's years and is the last month with data:
      December, or March for 2024. */
  lemma EndMarkerIsLastMonth(year: int)
    ensures EndMarker(year).Some? <==> 2020 <= year <= 2024
    ensures 2020 <= year <= 2024 ==> EndMarker(year) == Some(MonthKey(year, LastMonth(year)))
  {
    if 2020 <= year <= 2024 {
      YearText(year);
      assert DecimalText(12) == "12" && DecimalText(3) == "3";
      if year == 2020 {
        assert MonthKey(year, 12) == "2020-12";
      } else if year == 2021 {
        assert MonthKey(year, 12) == "2021-12";
      } else if year == 2022 {
        assert MonthKey(year, 12) == "2022-12";
      } else if year == 2023 {
        assert MonthKey(year, 12) == "2023-12";
      } else {
        assert MonthKey(year, 3) == "2024-3";
      }
    }
  }

  lemma YearText(year: int)
    requires 2020 <= year <= 2024
    ensures DecimalText(year) == "202" + [DigitText(year - 2020)]
  {
    assert DecimalText(202) == "202";
    assert year / 10 == 202 && year % 10 == year - 2020;
  }

  // ---- the chart frame and figure ----

  /** One group after both column assignments. */
  function AnnotateOne(g: ChartGroup, template: string, text: string): ChartRow
  {
    ChartRow(g, Some(Formatted(template, g.value)), Some(text))
  }

  /** The frame after both column assignments, before the sort. */
  function Annotate(gs: seq<ChartGroup>, template: string, text: string): (rows: seq<ChartRow>)
    ensures |rows| == |gs|
    ensures forall i | 0 <= i < |gs| :: rows[i] == AnnotateOne(gs[i], template, text)
  {
    if gs == [] then [] else [AnnotateOne(gs[0], template, text)] + Annotate(gs[1..], template, text)
  }

  /** The frame `plotly_charter` works on. */
  class ChartFrame {
    var rows: seq<ChartRow>

    constructor FromGroups(gs: seq<ChartGroup>)
      ensures |rows| == |gs| && forall i | 0 <= i < |gs| :: rows[i] == ChartRow(gs[i], None, None)
    {
      rows := seq(|gs|, i requires 0 <= i < |gs| => ChartRow(gs[i], None, None));
    }

    /** `df['var_formatted'] = df[column].apply(lambda x: template.format(x))`. */
    method AssignFormatted(template: string)
      modifies this
      ensures |rows| == |old(rows)|
      ensures forall i | 0 <= i < |rows| ::
        rows[i] == old(rows)[i].(formatted := Some(Formatted(template, old(rows)[i].group.value)))
    {
      var before := rows;
      rows := seq(|before|, i requires 0 <= i < |before| =>
        before[i].(formatted := Some(Formatted(template, before[i].group.value))));
    }

    /** `df['dashboard_var_label'] = ...`: the label template has no placeholder, so every
        row gets the label itself. */
    method AssignLabel(text: string)
      modifies this
      ensures |rows| == |old(rows)|
      ensures forall i | 0 <= i < |rows| :: rows[i] == old(rows)[i].(varLabel := Some(text))
    {
      var before := rows;
      rows := seq(|before|, i requires 0 <= i < |before| => before[i].(varLabel := Some(text)));
    }

    /** `df = df.sort_values(['year', 'month'])`. */
    method SortChronologically()
      modifies this
      ensures rows == SortRows(old(rows))
      ensures Chronological(rows) && multiset(rows) == multiset(old(rows))
    {
      SortRowsPermutation(rows);
      rows := SortRows(rows);
    }
  }

  /** What `px.line` and the layout calls receive: the points in drawing order, the title,
      the y-axis tick format and the two marker positions. */
  datatype Figure = Figure(points: seq<ChartRow>, title: string, axisFormat: string,
                           startLine: Option<string>, endLine: Option<string>)

  /** The line chart for the given sales and filter state. */
  method PlotlyCharter(table: seq<Sale>, st: FilterState) returns (fig: Figure)
    ensures var gs := ChartGroups(FilterChart(table, st), st.metric);
      && |fig.points| == |gs|
      && multiset(fig.points) == multiset(Annotate(gs, Registry(st.metric).valueFormat, Registry(st.metric).displayLabel))
      && Chronological(fig.points)
      && fig.title == ChartTitle(st.geography, st.metric)
      && fig.axisFormat == Registry(st.metric).axisFormat
      && fig.startLine == StartMarker(st.years.0)
      && fig.endLine == EndMarker(st.years.1)
  {
    var gs := ChartGroups(FilterChart(table, st), st.metric);
    var frame := new ChartFrame.FromGroups(gs);
    frame.AssignFormatted(Registry(st.metric).valueFormat);
    frame.AssignLabel(Registry(st.metric).displayLabel);
    ghost var annotated := Annotate(gs, Registry(st.metric).valueFormat, Registry(st.metric).displayLabel);
    assert frame.rows == annotated;
    frame.SortChronologically();
    fig := Figure(frame.rows, ChartTitle(st.geography, st.metric), Registry(st.metric).axisFormat,
                  StartMarker(st.years.0), EndMarker(st.years.1));
  }
}
