/**
 * Forecast requests: the metric and the filters read from the prompt's
 * keywords, the WHERE clause and the yearly query, the fewer-than-5-rows
 * guard, the five projected years, the chart file names and the five
 * analysis sections of the output dict.
 *
 * The warehouse query, the regression, the markdown rendering and the
 * language model are collaborators given in a Services record.
 */
module Forecasting {
  import opened Wrappers
  import opened Text
  import opened Collections

  // ---------------------------------------------------------------------------
  // infer_metric
  // ---------------------------------------------------------------------------

  /** The columns infer_metric can answer. */
  const MetricColumns: seq<string> := [
    "TOTAL_DEATHS", "NO_INJURED", "NO_AFFECTED", "NO_HOMELESS", "INSURED_DAMAGE_000_USD",
    "RECONSTRUCTION_COSTS_000_USD", "TOTAL_DAMAGE_000_USD", "TOTAL_AFFECTED"
  ]

  /** The metric a prompt asks about: the first keyword found, in a fixed priority. */
  function InferMetric(prompt: string): string {
    var p := Lower(prompt);
    if Contains(p, "death") then "TOTAL_DEATHS"
    else if Contains(p, "injured") then "NO_INJURED"
    else if Contains(p, "affected") then "NO_AFFECTED"
    else if Contains(p, "homeless") then "NO_HOMELESS"
    else if Contains(p, "damage") && Contains(p, "insured") then "INSURED_DAMAGE_000_USD"
    else if Contains(p, "damage") && Contains(p, "reconstruction") then "RECONSTRUCTION_COSTS_000_USD"
    else if Contains(p, "damage") then "TOTAL_DAMAGE_000_USD"
    else "TOTAL_AFFECTED"
  }

  /** infer_metric answers one of its eight columns. */
  lemma InferMetricIsColumn(prompt: string)
    ensures InferMetric(prompt) in MetricColumns
  {
  }

  /**
   * The priority of the keywords: "death" wins over all others, then "injured",
   * "affected" and "homeless" in that order; the damage
   * columns need "damage" and none of the four people keywords, insured
   * before reconstruction; without any keyword the answer is TOTAL_AFFECTED.
   */
  lemma InferMetricPriority(prompt: string)
    ensures var p := Lower(prompt);
      var m := InferMetric(prompt);
      var people := Contains(p, "death") || Contains(p, "injured") || Contains(p, "affected") || Contains(p, "homeless");
      (Contains(p, "death") <==> m == "TOTAL_DEATHS")
      && (m == "NO_INJURED" <==> !Contains(p, "death") && Contains(p, "injured"))
      && (m == "NO_AFFECTED" <==> !Contains(p, "death") && !Contains(p, "injured") && Contains(p, "affected"))
      && (m == "NO_HOMELESS" <==>
            !Contains(p, "death") && !Contains(p, "injured") && !Contains(p, "affected") && Contains(p, "homeless"))
      && (m == "INSURED_DAMAGE_000_USD" <==> !people && Contains(p, "damage") && Contains(p, "insured"))
      && (m == "RECONSTRUCTION_COSTS_000_USD" <==>
            !people && Contains(p, "damage") && !Contains(p, "insured") && Contains(p, "reconstruction"))
      && (m == "TOTAL_DAMAGE_000_USD" <==>
            !people && Contains(p, "damage") && !Contains(p, "insured") && !Contains(p, "reconstruction"))
      && (m == "TOTAL_AFFECTED" <==> !people && !Contains(p, "damage"))
  {
  }

  // ---------------------------------------------------------------------------
  // extract_filters
  // ---------------------------------------------------------------------------

  /** Each keyword with the condition extract_filters appends for it, in the order of the checks. */
  const FilterTable: seq<(string, string)> := [
    ("flood", "DISASTER_TYPE = 'Flood'"),
    ("earthquake", "DISASTER_TYPE = 'Earthquake'"),
    ("cyclone", "DISASTER_TYPE = 'Cyclone'"),
    ("tsunami", "DISASTER_TYPE = 'Tsunami'"),
    ("wildfire", "DISASTER_TYPE = 'Wildfire'"),
    ("drought", "DISASTER_TYPE = 'Drought'"),
    ("asia", "REGION = 'Asia'"),
    ("africa", "REGION = 'Africa'"),
    ("europe", "REGION = 'Europe'"),
    ("americas", "REGION = 'Americas'")
  ]

  /** The conditions of the entries of `table` whose keyword occurs in `p`, in table order. */
  function Selected(table: seq<(string, string)>, p: string): seq<string> {
    if table == [] then []
    else (if Contains(p, table[0].0) then [table[0].1] else []) + Selected(table[1..], p)
  }

  /** The condition of entry `k` of `table` when its keyword occurs in `p`. */
  function Pick(table: seq<(string, string)>, p: string, k: nat): seq<string>
    requires k < |table|
  {
    if Contains(p, table[k].0) then [table[k].1] else []
  }

  /** The conditions of the first `n` entries of `table` whose keyword occurs in `p`, in table order. */
  function PicksUpTo(table: seq<(string, string)>, p: string, n: nat): seq<string>
    requires n <= |table|
  {
    if n == 0 then [] else PicksUpTo(table, p, n - 1) + Pick(table, p, n - 1)
  }

  /** extract_filters: the checks of the table, one after the other. */
  function FiltersFor(prompt: string): seq<string> {
    PicksUpTo(FilterTable, Lower(prompt), |FilterTable|)
  }

  lemma {:induction false} PicksUpToIsSelected(table: seq<(string, string)>, p: string, n: nat)
    requires n <= |table|
    ensures PicksUpTo(table, p, n) == Selected(table[..n], p)
  {
    if n > 0 {
      PicksUpToIsSelected(table, p, n - 1);
      SelectedSnoc(table, n - 1, p);
    }
  }

  /** The checks select the conditions whose keyword occurs, in table order. */
  lemma FiltersForIsSelected(prompt: string)
    ensures FiltersFor(prompt) == Selected(FilterTable, Lower(prompt))
  {
    PicksUpToIsSelected(FilterTable, Lower(prompt), |FilterTable|);
    assert FilterTable[..|FilterTable|] == FilterTable;
  }

  function Conditions(table: seq<(string, string)>): (r: seq<string>)
    ensures |r| == |table| && forall i :: 0 <= i < |table| ==> r[i] == table[i].1
  {
    seq(|table|, i requires 0 <= i < |table| => table[i].1)
  }

  lemma {:induction false} SelectedIsSubsequence(table: seq<(string, string)>, p: string)
    ensures IsSubsequence(Selected(table, p), Conditions(table))
  {
    if table != [] {
      SelectedIsSubsequence(table[1..], p);
      assert Conditions(table)[1..] == Conditions(table[1..]);
      if !Contains(p, table[0].0) && Selected(table[1..], p) != [] {
        assert Selected(table, p) == Selected(table[1..], p);
      }
    }
  }

  /** Every selected condition comes from an entry whose keyword occurs, and every such entry's condition is selected. */
  lemma {:induction false} SelectedMembers(table: seq<(string, string)>, p: string)
    ensures forall i :: 0 <= i < |table| && Contains(p, table[i].0) ==> table[i].1 in Selected(table, p)
    ensures forall x :: x in Selected(table, p) ==> exists i :: 0 <= i < |table| && table[i].1 == x && Contains(p, table[i].0)
  {
    if table != [] {
      SelectedMembers(table[1..], p);
      forall i | 1 <= i < |table| ensures table[i] == table[1..][i - 1] { }
    }
  }

  lemma FilterConditionsDistinct()
    ensures forall i, j :: 0 <= i < j < |FilterTable| ==> FilterTable[i].1 != FilterTable[j].1
  {
  }

  /**
   * The filters are conditions of the fixed list, in its order and without
   * duplicates; a condition is present exactly when its keyword occurs in the
   * lower-cased prompt.
   */
  lemma FiltersForProperties(prompt: string)
    ensures var f := FiltersFor(prompt);
      IsSubsequence(f, Conditions(FilterTable))
      && (forall i, j :: 0 <= i < j < |f| ==> f[i] != f[j])
      && (forall i :: 0 <= i < |FilterTable| ==> (FilterTable[i].1 in f <==> Contains(Lower(prompt), FilterTable[i].0)))
  {
    var p := Lower(prompt);
    var f := FiltersFor(prompt);
    FiltersForIsSelected(prompt);
    SelectedIsSubsequence(FilterTable, p);
    FilterConditionsDistinct();
    SubsequenceDistinct(f, Conditions(FilterTable));
    SelectedMembers(FilterTable, p);
    forall i | 0 <= i < |FilterTable| && FilterTable[i].1 in f ensures Contains(p, FilterTable[i].0) {
      var j :| 0 <= j < |FilterTable| && FilterTable[j].1 == FilterTable[i].1 && Contains(p, FilterTable[j].0);
      assert i == j;
    }
  }

  /** extract_filters: one check per keyword, in the order of the table. */
  method ExtractFilters(prompt: string) returns (filters: seq<string>)
    ensures filters == FiltersFor(prompt)
  {
    var p := Lower(prompt);
    filters := [];
    filters := CheckKeyword(filters, p, 0);
    filters := CheckKeyword(filters, p, 1);
    filters := CheckKeyword(filters, p, 2);
    filters := CheckKeyword(filters, p, 3);
    filters := CheckKeyword(filters, p, 4);
    filters := CheckKeyword(filters, p, 5);
    filters := CheckKeyword(filters, p, 6);
    filters := CheckKeyword(filters, p, 7);
    filters := CheckKeyword(filters, p, 8);
    filters := CheckKeyword(filters, p, 9);
  }

  /** One check of extract_filters: append the condition of entry `k` when its keyword occurs in `p`. */
  method CheckKeyword(filters: seq<string>, p: string, k: nat) returns (r: seq<string>)
    requires k < |FilterTable|
    ensures r == filters + Pick(FilterTable, p, k)
    ensures filters == PicksUpTo(FilterTable, p, k) ==> r == PicksUpTo(FilterTable, p, k + 1)
  {
    r := filters;
    if Contains(p, FilterTable[k].0) {
      r := r + [FilterTable[k].1];
    }
  }

  /** Selected over one more entry of the table. */
  lemma {:induction false} SelectedSnoc(table: seq<(string, string)>, k: nat, p: string)
    requires k < |table|
    ensures Selected(table[..k + 1], p) == Selected(table[..k], p) + (if Contains(p, table[k].0) then [table[k].1] else [])
  {
    if k > 0 {
      SelectedSnoc(table[1..], k - 1, p);
      assert table[..k + 1][1..] == table[1..][..k];
      assert table[..k][1..] == table[1..][..k - 1];
    }
  }

  // ---------------------------------------------------------------------------
  // The query
  // ---------------------------------------------------------------------------

  const WherePrefix: string := "WHERE START_YEAR IS NOT NULL AND "

  /** The WHERE clause: both columns non-null, then the filters joined by AND. */
  function WhereClause(metric: string, filters: seq<string>): string {
    WherePrefix + metric + " IS NOT NULL" + (if filters != [] then " AND " + Join(filters, " AND ") else "")
  }

  /** The query text sent for the metric and the WHERE clause. */
  function ForecastQuery(metric: string, where: string): string {
    "\n    SELECT START_YEAR, SUM(" + metric + ") AS " + metric + "\n    FROM DISASTER_TABLE\n    "
    + where + "\n    GROUP BY START_YEAR\n    ORDER BY START_YEAR\n    "
  }

  /** The clause starts with the two non-null conditions and has more exactly when there are filters. */
  lemma WhereClauseShape(metric: string, filters: seq<string>)
    ensures var w := WhereClause(metric, filters);
      var head := WherePrefix + metric + " IS NOT NULL";
      |head| <= |w| && w[..|head|] == head
      && (filters == [] <==> w == head)
      && (filters != [] ==> w[|head|..] == " AND " + Join(filters, " AND "))
  {
    var head := WherePrefix + metric + " IS NOT NULL";
    if filters != [] {
      AppendParts(head, " AND " + Join(filters, " AND "));
    } else {
      AppendEmpty(head);
    }
  }

  // ---------------------------------------------------------------------------
  // generate_forecast
  // ---------------------------------------------------------------------------

  /** A row of the yearly query: START_YEAR and the summed metric, which may be null. */
  datatype QueryRow = QueryRow(year: int, value: Option<real>)

  /** A row of the forecast table. */
  datatype YearValue = YearValue(year: int, value: real)

  datatype Services = Services(
    /** The warehouse: the rows of a query, or the text of the exception it raises. */
    query: string -> Result<seq<QueryRow>, string>,
    /** The regression fitted on the history, evaluated at a year. */
    predict: (seq<YearValue>, int) -> real,
    /** to_markdown of the table. */
    markdown: seq<YearValue> -> string,
    /** The language model's answer to a task, or the text of the exception it raises. */
    llm: string -> Result<string, string>)

  datatype ForecastData = ForecastData(metric: string, filters: seq<string>, forecastTable: seq<YearValue>, forecastYears: seq<int>)

  /** The output dict: data, charts, analysis and error, and status once written. */
  datatype Output = Output(
    data: Option<ForecastData>, charts: seq<(string, string)>, analysis: seq<(string, string)>,
    error: Option<string>, status: Option<string>)

  const StartOutput: Output := Output(None, [], [], None, None)

  const NotEnoughData: string := "Not enough data for forecasting."

  const MinRows: nat := 5

  /**
   * `dropna(subset=[metric])`: the rows whose value is not null, and only
   * those. HistoryAppend states that they keep their order.
   */
  function History(rows: seq<QueryRow>): (h: seq<YearValue>)
    ensures |h| <= |rows|
    ensures forall i :: 0 <= i < |h| ==> QueryRow(h[i].year, Some(h[i].value)) in rows
    ensures forall i :: 0 <= i < |rows| && rows[i].value.Some? ==> YearValue(rows[i].year, rows[i].value.value) in h
    ensures h == [] <==> forall i :: 0 <= i < |rows| ==> rows[i].value.None?
  {
    if rows == [] then []
    else
      var rest := History(rows[1..]);
      assert forall i :: 0 <= i < |rest| ==> QueryRow(rest[i].year, Some(rest[i].value)) in rows by {
        assert forall r :: r in rows[1..] ==> r in rows;
      }
      match rows[0].value
      case Some(v) => [YearValue(rows[0].year, v)] + rest
      case None => rest
  }

  /**
   * dropna() of two row blocks put together is the two results put together;
   * a single row is kept, as a year and its value, exactly when its value is not null.
   */
  lemma {:induction false} HistoryAppend(a: seq<QueryRow>, b: seq<QueryRow>)
    ensures History(a + b) == History(a) + History(b)
    ensures forall y, v :: History([QueryRow(y, v)]) == if v.Some? then [YearValue(y, v.value)] else []
  {
    if a != [] {
      assert (a + b)[1..] == a[1..] + b;
      HistoryAppend(a[1..], b);
      assert History(a + b) == History([a[0]]) + History(a[1..] + b);
    } else {
      assert a + b == b;
    }
  }

  function MaxYear(h: seq<YearValue>): (m: int)
    requires h != []
    ensures forall i :: 0 <= i < |h| ==> h[i].year <= m
    ensures exists i :: 0 <= i < |h| && h[i].year == m
  {
    if |h| == 1 then h[0].year
    else
      var m := MaxYear(h[1..]);
      assert forall i :: 1 <= i < |h| ==> h[i] == h[1..][i - 1];
      if h[0].year >= m then h[0].year else m
  }

  /** `range(max + 1, max + 6)` */
  function FutureYears(h: seq<YearValue>): seq<int>
    requires h != []
  {
    var m := MaxYear(h);
    seq(5, k requires 0 <= k < 5 => m + 1 + k)
  }

  /** The future years with the regression's value at each. */
  function Projection(predict: (seq<YearValue>, int) -> real, h: seq<YearValue>, years: seq<int>): (p: seq<YearValue>)
    ensures |p| == |years| && forall k :: 0 <= k < |p| ==> p[k].year == years[k] && p[k].value == predict(h, years[k])
  {
    seq(|years|, k requires 0 <= k < |years| => YearValue(years[k], predict(h, years[k])))
  }

  /** "title" of a metric for the prompts: '_' as ' ', lower-cased. */
  function MetricWords(metric: string): string {
    Lower(seq(|metric|, i requires 0 <= i < |metric| => if metric[i] == '_' then ' ' else metric[i]))
  }

  function ChartPaths(metric: string): seq<(string, string)> {
    var m := Lower(metric);
    [("forecast", "forecast_" + m + ".png"), ("historical", "historical_" + m + "_bar.png"), ("growth", "growth_" + m + ".png")]
  }

  const SectionNames: seq<string> := [
    "trend_analysis", "growth_decline_phases", "forecast_interpretation", "risk_implications", "conclusion"
  ]

  /** The five analysis tasks, in the order of the sections dict: each section's name and its task. */
  function SectionTasks(metric: string, years: seq<int>, markdown: string): (t: seq<(string, string)>)
    requires |years| == 5
    ensures |t| == 5 && forall k :: 0 <= k < 5 ==> t[k].0 == SectionNames[k]
  {
    seq(5, k requires 0 <= k < 5 => (SectionNames[k], SectionTask(k, MetricWords(metric), years, markdown)))
  }

  /** The LLM prompt of section `k`, for the metric written as words and the table as markdown. */
  function SectionTask(k: nat, w: string, years: seq<int>, markdown: string): string
    requires k < 5 && |years| == 5
  {
    if k == 0 then "Analyze this year-wise trend for " + w + ":\n\n" + markdown
    else if k == 1 then
      "Based on the following data, identify the biggest spikes and drops in " + w
      + " over time. Explain what patterns emerge:\n\n" + markdown
    else if k == 2 then
      "Based on the historical and forecasted values from this dataset, explain the trends from "
      + IntToString(years[0]) + " to " + IntToString(years[4]) + ":\n\n" + markdown
    else if k == 3 then
      "What does this data suggest about future risks or vulnerabilities related to " + w
      + "? Here is the data:\n\n" + markdown
    else "Summarize insights, patterns, and uncertainties using this dataset:\n\n" + markdown
  }

  /** The section loop from `out` on: each answer is stored under its name; an exception stops it. */
  function RunSections(out: Output, tasks: seq<(string, string)>, llm: string -> Result<string, string>): Output
    decreases |tasks|
  {
    if tasks == [] then out
    else
      match llm(tasks[0].1)
      case Err(e) => out.(status := Some("error"), error := Some(e))
      case Ok(answer) => RunSections(out.(analysis := out.analysis + [(tasks[0].0, answer)]), tasks[1..], llm)
  }

  /** generate_forecast, as the output dict it returns. */
  function Forecast(prompt: string, sv: Services): Output {
    var metric := InferMetric(prompt);
    var filters := FiltersFor(prompt);
    match sv.query(ForecastQuery(metric, WhereClause(metric, filters)))
    case Err(e) => StartOutput.(status := Some("error"), error := Some(e))
    case Ok(rows) =>
      var h := History(rows);
      if |h| < MinRows then StartOutput.(status := Some("warning"), error := Some(NotEnoughData))
      else
        var years := FutureYears(h);
        var table := h + Projection(sv.predict, h, years);
        var out := StartOutput.(data := Some(ForecastData(metric, filters, table, years)), charts := ChartPaths(metric));
        RunSections(out, SectionTasks(metric, years, sv.markdown(table)), sv.llm)
  }

  /** The three chart paths, appended one at a time, in the order ChartPaths lists them. */
  lemma ChartsInOrder(metric: string)
    ensures var m := Lower(metric);
      [] + [("forecast", "forecast_" + m + ".png")] + [("historical", "historical_" + m + "_bar.png")]
        + [("growth", "growth_" + m + ".png")] == ChartPaths(metric)
  {
  }

  method GenerateForecast(prompt: string, sv: Services) returns (output: Output)
    ensures output == Forecast(prompt, sv)
  {
    output := StartOutput;
    var metric := InferMetric(prompt);
    var filters := ExtractFilters(prompt);
    var whereClause := WherePrefix + metric + " IS NOT NULL";
    if filters != [] {
      whereClause := whereClause + " AND " + Join(filters, " AND ");
    } else {
      AppendEmpty(whereClause);
    }
    assert whereClause == WhereClause(metric, FiltersFor(prompt));
    var query := ForecastQuery(metric, whereClause);
    var answer := sv.query(query);
    if answer.Err? {
      output := output.(status := Some("error"), error := Some(answer.error));
      return;
    }
    var h := History(answer.value);
    if |h| < MinRows {
      output := output.(status := Some("warning"), error := Some(NotEnoughData));
      return;
    }
    var futureYears := FutureYears(h);
    var combined := h + Projection(sv.predict, h, futureYears);
    output := output.(data := Some(ForecastData(metric, filters, combined, futureYears)));
    var m := Lower(metric);
    output := output.(charts := output.charts + [("forecast", "forecast_" + m + ".png")]);
    output := output.(charts := output.charts + [("historical", "historical_" + m + "_bar.png")]);
    output := output.(charts := output.charts + [("growth", "growth_" + m + ".png")]);
    ChartsInOrder(metric);
    assert output == StartOutput.(data := Some(ForecastData(metric, filters, combined, futureYears)), charts := ChartPaths(metric));
    var sections := SectionTasks(metric, futureYears, sv.markdown(combined));
    output := RunSectionLoop(output, sections, sv.llm);
  }

  /**
   * The section loop of generate_forecast: one model call per section, each
   * answer appended under its name, and the first failure ends the loop with
   * the error status.
   */
  method RunSectionLoop(start: Output, sections: seq<(string, string)>, llm: string -> Result<string, string>)
    returns (output: Output)
    ensures output == RunSections(start, sections, llm)
  {
    output := start;
    assert sections[0..] == sections;
    var i := 0;
    while i < |sections|
      invariant 0 <= i <= |sections|
      invariant RunSections(output, sections[i..], llm) == RunSections(start, sections, llm)
    {
      var answer := llm(sections[i].1);
      if answer.Err? {
        assert RunSections(output, sections[i..], llm)
            == output.(status := Some("error"), error := Some(answer.error)) by {
          assert sections[i..][0] == sections[i];
        }
        output := output.(status := Some("error"), error := Some(answer.error));
        return;
      }
      assert RunSections(output, sections[i..], llm)
          == RunSections(output.(analysis := output.analysis + [(sections[i].0, answer.value)]), sections[i + 1..], llm) by {
        assert sections[i..][0] == sections[i];
        assert sections[i..][1..] == sections[i + 1..];
      }
      output := output.(analysis := output.analysis + [(sections[i].0, answer.value)]);
      i := i + 1;
    }
  }

  // ---------------------------------------------------------------------------
  // Properties of the output
  // ---------------------------------------------------------------------------

  /** Fewer than five yearly rows with a value: the warning and nothing else. */
  lemma ForecastNeedsFiveRows(prompt: string, sv: Services)
    requires var m := InferMetric(prompt);
      var q := sv.query(ForecastQuery(m, WhereClause(m, FiltersFor(prompt))));
      q.Ok? && |History(q.value)| < MinRows
    ensures Forecast(prompt, sv) == Output(None, [], [], Some(NotEnoughData), Some("warning"))
  {
  }

  /** The section loop keeps data and charts, and either finishes all tasks or records the exception. */
  lemma {:induction false} RunSectionsResult(out: Output, tasks: seq<(string, string)>, llm: string -> Result<string, string>)
    decreases |tasks|
    requires out.status.None? && out.error.None?
    ensures var r := RunSections(out, tasks, llm);
      r.data == out.data && r.charts == out.charts
      && (r.status.None? <==> r.error.None?)
      && (r.status.Some? ==> r.status == Some("error"))
      && (r.status.None? ==>
            |r.analysis| == |out.analysis| + |tasks|
            && r.analysis[..|out.analysis|] == out.analysis
            && forall k :: 0 <= k < |tasks| ==> r.analysis[|out.analysis| + k].0 == tasks[k].0)
  {
    if tasks != [] && llm(tasks[0].1).Ok? {
      var next := out.(analysis := out.analysis + [(tasks[0].0, llm(tasks[0].1).value)]);
      RunSectionsResult(next, tasks[1..], llm);
      var r := RunSections(next, tasks[1..], llm);
      if r.status.None? {
        assert r.analysis[..|out.analysis|] == next.analysis[..|next.analysis|][..|out.analysis|];
        forall k | 0 <= k < |tasks| ensures r.analysis[|out.analysis| + k].0 == tasks[k].0 {
          if k == 0 {
            assert r.analysis[|out.analysis|] == next.analysis[|out.analysis|];
          } else {
            assert tasks[k] == tasks[1..][k - 1];
          }
        }
      }
    }
  }

  /**
   * On success (no status written): error stays None; the forecast years are
   * the five years after the last historical one; the table is the history
   * followed by one projected row per forecast year; the charts are the three
   * files named after the lower-cased metric; the analysis has the five
   * sections in order.
   */
  lemma ForecastSuccess(prompt: string, sv: Services)
    requires Forecast(prompt, sv).status.None?
    ensures var o := Forecast(prompt, sv);
      var m := InferMetric(prompt);
      var q := sv.query(ForecastQuery(m, WhereClause(m, FiltersFor(prompt))));
      o.error.None? && o.data.Some?
      && o.data.value.metric == m && o.data.value.filters == FiltersFor(prompt)
      && |o.data.value.forecastYears| == 5
      && q.Ok? && |History(q.value)| >= MinRows && IsForecastOf(o.data.value, History(q.value), sv.predict)
      && o.charts == [("forecast", "forecast_" + Lower(m) + ".png"), ("historical", "historical_" + Lower(m) + "_bar.png"),
                      ("growth", "growth_" + Lower(m) + ".png")]
      && |o.analysis| == 5 && forall k :: 0 <= k < 5 ==> o.analysis[k].0 == SectionNames[k]
  {
    var m := InferMetric(prompt);
    var q := sv.query(ForecastQuery(m, WhereClause(m, FiltersFor(prompt))));
    var h := History(q.value);
    var years := FutureYears(h);
    var table := h + Projection(sv.predict, h, years);
    var d := ForecastData(m, FiltersFor(prompt), table, years);
    var out := StartOutput.(data := Some(d), charts := ChartPaths(m));
    var tasks := SectionTasks(m, years, sv.markdown(table));
    assert q.Ok? && |h| >= MinRows && Forecast(prompt, sv) == RunSections(out, tasks, sv.llm);
    SectionsSuccess(d, h, sv.predict, tasks, sv.llm);
  }

  /** When the section loop ends without a status, the output holds the forecast of `h` and the five sections in order. */
  lemma SectionsSuccess(d: ForecastData, h: seq<YearValue>, predict: (seq<YearValue>, int) -> real,
                        tasks: seq<(string, string)>, llm: string -> Result<string, string>)
    requires h != [] && d.forecastYears == FutureYears(h)
    requires d.forecastTable == h + Projection(predict, h, d.forecastYears)
    requires |tasks| == 5 && forall k :: 0 <= k < 5 ==> tasks[k].0 == SectionNames[k]
    requires RunSections(StartOutput.(data := Some(d), charts := ChartPaths(d.metric)), tasks, llm).status.None?
    ensures var o := RunSections(StartOutput.(data := Some(d), charts := ChartPaths(d.metric)), tasks, llm);
      o.error.None? && o.data == Some(d) && o.charts == ChartPaths(d.metric)
      && IsForecastOf(d, h, predict)
      && |o.analysis| == 5 && forall k :: 0 <= k < 5 ==> o.analysis[k].0 == SectionNames[k]
  {
    RunSectionsResult(StartOutput.(data := Some(d), charts := ChartPaths(d.metric)), tasks, llm);
    ForecastYearsAfter(h);
    assert d.forecastTable[..|h|] == h;
  }

  /**
   * `d` forecasts the history `h`: five consecutive years, each after every
   * historical year, the first right after the last one; the table is `h`
   * followed by the projected rows of those years.
   */
  predicate IsForecastOf(d: ForecastData, h: seq<YearValue>, predict: (seq<YearValue>, int) -> real) {
    var ys := d.forecastYears;
    |ys| == 5 && h != []
    && (forall k :: 0 <= k < 4 ==> ys[k + 1] == ys[k] + 1)
    && (forall k, i :: 0 <= k < 5 && 0 <= i < |h| ==> h[i].year < ys[k])
    && (exists i :: 0 <= i < |h| && h[i].year + 1 == ys[0])
    && |d.forecastTable| == |h| + 5 && d.forecastTable[..|h|] == h
    && forall k :: 0 <= k < 5 ==> d.forecastTable[|h| + k] == YearValue(ys[k], predict(h, ys[k]))
  }

  lemma ForecastYearsAfter(h: seq<YearValue>)
    requires h != []
    ensures var ys := FutureYears(h);
      (forall k :: 0 <= k < 4 ==> ys[k + 1] == ys[k] + 1)
      && (forall k, i :: 0 <= k < 5 && 0 <= i < |h| ==> h[i].year < ys[k])
      && (exists i :: 0 <= i < |h| && h[i].year + 1 == ys[0])
  {
    var m := MaxYear(h);
    var ys := FutureYears(h);
    assert forall k :: 0 <= k < 5 ==> ys[k] == m + 1 + k;
    var i :| 0 <= i < |h| && h[i].year == m;
    assert h[i].year + 1 == ys[0];
  }

  /** A failed query leaves only the exception's text: data None, no charts, no analysis. */
  lemma ForecastQueryFails(prompt: string, sv: Services)
    requires var m := InferMetric(prompt);
      sv.query(ForecastQuery(m, WhereClause(m, FiltersFor(prompt)))).Err?
    ensures var o := Forecast(prompt, sv);
      var m := InferMetric(prompt);
      o.status == Some("error") && o.error == Some(sv.query(ForecastQuery(m, WhereClause(m, FiltersFor(prompt)))).error)
      && o.data.None? && o.charts == [] && o.analysis == []
  {
  }

  /** Whatever happens, error is None exactly when no status was written. */
  lemma ForecastStatus(prompt: string, sv: Services)
    ensures var o := Forecast(prompt, sv);
      (o.status.None? <==> o.error.None?)
      && (o.status.Some? ==> o.status == Some("error") || o.status == Some("warning"))
      && (o.status == Some("warning") ==> o.error == Some(NotEnoughData))
  {
    var m := InferMetric(prompt);
    var q := sv.query(ForecastQuery(m, WhereClause(m, FiltersFor(prompt))));
    if q.Ok? && |History(q.value)| >= MinRows {
      var h := History(q.value);
      var years := FutureYears(h);
      var table := h + Projection(sv.predict, h, years);
      var out := StartOutput.(data := Some(ForecastData(m, FiltersFor(prompt), table, years)), charts := ChartPaths(m));
      RunSectionsResult(out, SectionTasks(m, years, sv.markdown(table)), sv.llm);
    }
  }
}
