/**
 * The analysis pipeline: the state record that flows through the nine nodes,
 * each node as a function from state to state, the one conditional edge after
 * validation and the two terminals.
 *
 * The parser is the model of the prompt parser. The retrieval agent, the
 * statistics analyzer, the dashboard, the forecast and the report agent are
 * collaborators that return a value or fail with the exception's text; the
 * lemmas at the end plug in the models of the retrieval agent, the analyzer
 * and the forecast where a property depends on them.
 */
module Pipeline {
  import opened Wrappers
  import opened Text
  import opened Records
  import InputParser
  import DataRetrieve
  import Statistical
  import Forecasting

  /**
   * AgentState. A key that was never written and a key written as None read the
   * same through `.get`, so both are None here; validation_error is never
   * written as None, so its key is present exactly when it is Some.
   */
  datatype AgentState = AgentState(
    prompt: string,
    disasterType: Option<string>,
    country: Option<string>,
    year: Option<int>,
    validationError: Option<string>,
    output: Option<string>,
    rawData: Option<DataRetrieve.Frame>,
    summaryStats: Option<Stats>,
    enhancedStats: Option<Stats>,
    eventPatterns: Option<Stats>,
    dashboardPath: Option<string>,
    reportPath: Option<string>,
    forecastData: Option<Forecasting.Output>)

  /** `{"prompt": prompt}`, the state the graph is invoked with. */
  function Initial(prompt: string): AgentState {
    AgentState(prompt, None, None, None, None, None, None, None, None, None, None, None, None)
  }

  // ---------------------------------------------------------------------------
  // Python truthiness of the fields
  // ---------------------------------------------------------------------------

  predicate Truthy(s: Option<string>) {
    s.Some? && s.value != ""
  }

  predicate TruthyStats(s: Option<Stats>) {
    s.Some? && !s.value.IsEmpty()
  }

  predicate TruthyYear(y: Option<int>) {
    y.Some? && y.value != 0
  }

  /** Every validation_error written is non-empty, so key presence and truthiness agree. */
  predicate ErrorIsTruthy(s: AgentState) {
    s.validationError.None? || s.validationError.value != ""
  }

  // ---------------------------------------------------------------------------
  // Collaborators
  // ---------------------------------------------------------------------------

  /** What generate_report hands to the report agent. */
  datatype ReportInput = ReportInput(
    disasterType: string, country: string, year: Option<int>,
    dataStats: Stats, analysis: Stats, dashboardPath: Option<string>, forecastData: Option<Forecasting.Output>)

  datatype Collaborators = Collaborators(
    /** The order in which the parser's vocabulary sets are iterated. */
    disasterOrder: seq<string>,
    countryOrder: seq<string>,
    /** data_agent.retrieve_data(disaster_type, country, year), which never raises. */
    retrieve: (Option<string>, Option<string>, Option<int>) -> DataRetrieve.Frame,
    /** data_agent.get_summary_stats(df): the summary, or the exception's text. */
    summarize: DataRetrieve.Frame -> Result<Stats, string>,
    /** DisasterStatsAnalyzer(stats).calculate_core_stats(). */
    coreStats: Stats -> Result<Stats, string>,
    /** DisasterStatsAnalyzer(stats).analyze_event_patterns(). */
    eventPatterns: Stats -> Result<Stats, string>,
    /** DisasterDashboard(stats).create_dashboard(): the path. */
    dashboard: Stats -> Result<string, string>,
    /** generate_forecast(prompt): the output dict (it catches its own exceptions). */
    forecast: string -> Forecasting.Output,
    /** ReportSynthesisAgent(...).generate_report(): the path. */
    report: ReportInput -> Result<string, string>)

  /** The vocabulary orders visit each vocabulary, as iterating a Python set does. */
  ghost predicate ValidOrders(cs: Collaborators) {
    InputParser.Enumerates(cs.disasterOrder, InputParser.DisasterTypes)
    && InputParser.Enumerates(cs.countryOrder, InputParser.Countries)
  }

  // ---------------------------------------------------------------------------
  // The nodes
  // ---------------------------------------------------------------------------

  /**
   * parse_input: the parser's three results; output and the four data fields
   * reset to None; prompt and every other field kept.
   */
  function ParseInput(s: AgentState, cs: Collaborators): (r: AgentState)
    ensures var parsed := InputParser.Parse(s.prompt, cs.disasterOrder, cs.countryOrder);
      (r.disasterType, r.country, r.year) == parsed
      && r.output.None? && r.rawData.None? && r.summaryStats.None? && r.enhancedStats.None? && r.eventPatterns.None?
      && r.(disasterType := s.disasterType, country := s.country, year := s.year, output := s.output, rawData := s.rawData,
            summaryStats := s.summaryStats, enhancedStats := s.enhancedStats, eventPatterns := s.eventPatterns) == s
  {
    var (d, c, y) := InputParser.Parse(s.prompt, cs.disasterOrder, cs.countryOrder);
    s.(disasterType := d, country := c, year := y, output := None, rawData := None, summaryStats := None,
       enhancedStats := None, eventPatterns := None)
  }

  const MissingFields: string := "Missing required fields (disaster type and country)"

  /** validate_input: an error exactly when disaster type or country is missing or empty; else no change. */
  function ValidateInput(s: AgentState): (r: AgentState)
    ensures !Truthy(s.disasterType) || !Truthy(s.country) ==>
      r == s.(validationError := Some(MissingFields), output := Some("Error: Missing required fields"))
    ensures Truthy(s.disasterType) && Truthy(s.country) ==> r == s
  {
    if !Truthy(s.disasterType) || !Truthy(s.country) then
      s.(validationError := Some(MissingFields), output := Some("Error: Missing required fields"))
    else s
  }

  /** handle_error: "Input error: " and the error (or "Unknown error" when the key is absent). */
  function HandleError(s: AgentState): (r: AgentState)
    ensures r == s.(output := r.output)
    ensures r.output == Some("Input error: " + s.validationError.GetOr("Unknown error"))
  {
    s.(output := Some("Input error: " + s.validationError.GetOr("Unknown error")))
  }

  /** The `year` argument of retrieve_data for the state's year. */
  function YearArgument(y: Option<int>): DataRetrieve.YearFilter {
    if y.Some? then DataRetrieve.SingleYear(y.value) else DataRetrieve.NoYear
  }

  /** A node's fault: validation_error and output both carry the exception's text. */
  function Fail(s: AgentState, error: string, output: string): (r: AgentState)
    ensures error != "" ==> ErrorIsTruthy(r)
    ensures r.validationError == Some(error) && r.output == Some(output)
    ensures r.(validationError := s.validationError, output := s.output) == s
  {
    s.(validationError := Some(error), output := Some(output))
  }

  /** retrieve_data: the frame and its summary, or the summary's exception folded into the error. */
  function RetrieveNode(s: AgentState, cs: Collaborators): (r: AgentState)
    ensures ErrorIsTruthy(s) ==> ErrorIsTruthy(r)
    ensures r.prompt == s.prompt && r.disasterType == s.disasterType && r.country == s.country && r.year == s.year
  {
    var df := cs.retrieve(s.disasterType, s.country, s.year);
    match cs.summarize(df)
    case Ok(stats) => s.(rawData := Some(df), summaryStats := Some(stats), output := Some("Data retrieved successfully"))
    case Err(e) => Fail(s, "Data retrieval failed: " + e, "Error retrieving data: " + e)
  }

  /** The pattern keys the pipeline fills in when the analyzer left them out. */
  function WithPatternKeys(p: Stats): (r: Stats)
    ensures r.commonLocations.Present? && r.eventsPerYear.Present? && r.geospatialClusters.Present?
    ensures p.commonLocations.Present? ==> r.commonLocations == p.commonLocations
    ensures p.eventsPerYear.Present? ==> r.eventsPerYear == p.eventsPerYear
    ensures p.geospatialClusters.Present? ==> r.geospatialClusters == p.geospatialClusters
    ensures p.commonLocations.Absent? ==> r.commonLocations == Present([])
    ensures p.eventsPerYear.Absent? ==> r.eventsPerYear == Present([])
    ensures p.geospatialClusters.Absent? ==> r.geospatialClusters == Present(NoClusters)
    ensures r.(commonLocations := p.commonLocations, eventsPerYear := p.eventsPerYear,
               geospatialClusters := p.geospatialClusters) == p
  {
    var p1 := if p.commonLocations.Absent? then p.(commonLocations := Present([])) else p;
    var p2 := if p1.eventsPerYear.Absent? then p1.(eventsPerYear := Present([])) else p1;
    if p2.geospatialClusters.Absent? then p2.(geospatialClusters := Present(NoClusters)) else p2
  }

  const NoStatisticsForAnalysis: string := "No statistics available for analysis"

  /**
   * analyze_statistics: no summary overwrites the error; else the core stats,
   * then the patterns; either one's exception is folded into the error.
   */
  function AnalyzeNode(s: AgentState, cs: Collaborators): (r: AgentState)
    ensures ErrorIsTruthy(s) ==> ErrorIsTruthy(r)
    ensures r.prompt == s.prompt && r.disasterType == s.disasterType && r.country == s.country && r.year == s.year
  {
    if !TruthyStats(s.summaryStats) then
      Fail(s, NoStatisticsForAnalysis, "Error: No data available for analysis")
    else
      var stats := s.summaryStats.value;
      match cs.coreStats(stats)
      case Err(e) => Fail(s, "Statistical analysis failed: " + e, "Error during analysis: " + e)
      case Ok(enhanced) =>
        match cs.eventPatterns(stats)
        case Err(e) => Fail(s, "Statistical analysis failed: " + e, "Error during analysis: " + e)
        case Ok(found) =>
          var patterns := WithPatternKeys(found);
          s.(enhancedStats := Some(enhanced), eventPatterns := Some(patterns), output := Some("Statistical analysis completed"),
             summaryStats := Some(stats.Merge(patterns)))
  }

  /** generate_visualizations: skipped after an error; the dashboard path, or its exception folded into the error. */
  function VisualizeNode(s: AgentState, cs: Collaborators): (r: AgentState)
    ensures ErrorIsTruthy(s) ==> ErrorIsTruthy(r)
    ensures r.prompt == s.prompt && r.disasterType == s.disasterType && r.country == s.country && r.year == s.year
  {
    if Truthy(s.validationError) then s
    else if !TruthyStats(s.summaryStats) then
      s.(output := Some("No data available for visualization"), dashboardPath := None)
    else
      match cs.dashboard(s.summaryStats.value)
      case Ok(path) => s.(dashboardPath := Some(path), output := Some("Visualizations generated at " + path))
      case Err(e) => Fail(s, "Visualization failed: " + e, "Error generating visualizations: " + e)
  }

  /** The prompt generate_forecast_data sends: " for year ..." only for a truthy year. */
  function ForecastPrompt(d: string, c: string, y: Option<int>): (p: string)
    ensures TruthyYear(y) ==> p == "Analyze " + d + " in " + c + " for year " + IntToString(y.value)
    ensures !TruthyYear(y) ==> p == "Analyze " + d + " in " + c
  {
    var p := "Analyze " + d + " in " + c;
    if TruthyYear(y) then p + " for year " + IntToString(y.value) else p
  }

  /** generate_forecast_data: skipped after an error; a truthy "error" of the forecast becomes the error. */
  function ForecastNode(s: AgentState, cs: Collaborators): (r: AgentState)
    ensures ErrorIsTruthy(s) ==> ErrorIsTruthy(r)
    ensures r.prompt == s.prompt && r.disasterType == s.disasterType && r.country == s.country && r.year == s.year
  {
    if Truthy(s.validationError) then s
    else if !Truthy(s.disasterType) || !Truthy(s.country) then
      Fail(s, "Missing required fields for forecast", "Error: Missing disaster type or country for forecast")
    else
      var data := cs.forecast(ForecastPrompt(s.disasterType.value, s.country.value, s.year));
      if Truthy(data.error) then
        Fail(s, "Forecast generation failed: " + data.error.value, "Error generating forecast: " + data.error.value)
      else s.(forecastData := Some(data), output := Some("Forecast data generated successfully"))
  }

  const InsufficientForReport: string := "Insufficient data for report generation"

  /** The five fields generate_report requires, all truthy. */
  predicate HasReportData(s: AgentState) {
    Truthy(s.disasterType) && Truthy(s.country) && TruthyStats(s.summaryStats) && TruthyStats(s.enhancedStats)
    && TruthyStats(s.eventPatterns)
  }

  /**
   * The report agent's arguments: the names, the year, the dashboard path and
   * the forecast passed on; the summary with total_damage_usd defaulted to 0;
   * the enrichment with the patterns put into it.
   */
  function ReportArguments(s: AgentState): (a: ReportInput)
    requires HasReportData(s)
    ensures a.disasterType == s.disasterType.value && a.country == s.country.value && a.year == s.year
    ensures a.dashboardPath == s.dashboardPath && a.forecastData == s.forecastData
    ensures a.dataStats.totalDamageUsd.Present?
    ensures s.summaryStats.value.totalDamageUsd.Present? ==> a.dataStats == s.summaryStats.value
    ensures s.summaryStats.value.totalDamageUsd.Absent? ==>
      a.dataStats == s.summaryStats.value.(totalDamageUsd := Present(Some(0)))
    ensures a.analysis == s.enhancedStats.value.(eventPatterns := Present(s.eventPatterns.value))
  {
    var stats := s.summaryStats.value;
    var dataStats := if stats.totalDamageUsd.Absent? then stats.(totalDamageUsd := Present(Some(0))) else stats;
    ReportInput(s.disasterType.value, s.country.value, s.year, dataStats,
                s.enhancedStats.value.(eventPatterns := Present(s.eventPatterns.value)), s.dashboardPath, s.forecastData)
  }

  /** generate_report, with the report agent given: skipped after an error; the report path, or the fault. */
  function ReportNode(s: AgentState, report: ReportInput -> Result<string, string>): (r: AgentState)
    ensures ErrorIsTruthy(s) ==> ErrorIsTruthy(r)
    ensures r.prompt == s.prompt && r.disasterType == s.disasterType && r.country == s.country && r.year == s.year
    ensures r.summaryStats == s.summaryStats && r.enhancedStats == s.enhancedStats && r.eventPatterns == s.eventPatterns
    ensures Truthy(s.validationError) ==> r == s
    ensures !Truthy(s.validationError) && !Truthy(r.validationError) ==> HasReportData(s) && r.reportPath.Some?
  {
    if Truthy(s.validationError) then s
    else if !HasReportData(s) then Fail(s, InsufficientForReport, "Error: Missing required data for report")
    else
      match report(ReportArguments(s))
      case Ok(path) => s.(reportPath := Some(path), output := Some("Final report generated at " + path))
      case Err(e) => Fail(s, "Report generation failed: " + e, "Error generating report: " + e)
  }

  /** The TypeError the report agent's constructor raises for the forecast_data keyword it does not declare. */
  const UnexpectedForecastData: string :=
    "ReportSynthesisAgent.__init__() got an unexpected keyword argument 'forecast_data'"

  /** The report agent as written: its constructor rejects the call before anything runs. */
  function ReportAsWritten(input: ReportInput): Result<string, string> {
    Err(UnexpectedForecastData)
  }

  /** Every state that reaches the report step without an error leaves it with the constructor's TypeError. */
  lemma ReportAsWrittenAlwaysFails(s: AgentState)
    requires !Truthy(s.validationError) && HasReportData(s)
    ensures ReportNode(s, ReportAsWritten).validationError == Some("Report generation failed: " + UnexpectedForecastData)
  {
  }

  const FailedMark: string := "‚ùå"
  const DoneMark: string := "‚úÖ"
  const DashboardMark: string := "üìä"
  const ReportMark: string := "üìÑ"

  function FailureMessage(error: string): string {
    FailedMark + " Processing failed: " + error
  }

  /** The success message: its head, the Year line for a truthy year, then the dashboard and report lines for truthy paths. */
  function SuccessMessage(d: string, c: string, y: Option<int>, dashboard: Option<string>, report: Option<string>): string {
    DoneMark + " Processing completed successfully!\n" + "Disaster: " + TitleCase(d) + "\n" + "Country: " + TitleCase(c) + "\n"
    + (if TruthyYear(y) then "Year: " + IntToString(y.value) + "\n" else "")
    + (if Truthy(dashboard) then "\n" + DashboardMark + " Dashboard: file://" + dashboard.value + "\n" else "")
    + (if Truthy(report) then "\n" + ReportMark + " Full Report: file://" + report.value + "\n" else "")
  }

  /** `.title()` on None: the AttributeError. */
  const NoneTitle: string := "'NoneType' object has no attribute 'title'"

  /** format_final_output: the failure text, or the success message (which needs both names). */
  function FormatNode(s: AgentState): (r: Result<AgentState, string>)
    ensures r.Ok? ==> r.value == s.(output := r.value.output)
    ensures Truthy(s.validationError) ==> r == Ok(s.(output := Some(FailureMessage(s.validationError.value))))
    ensures r.Err? <==> !Truthy(s.validationError) && (s.disasterType.None? || s.country.None?)
  {
    if Truthy(s.validationError) then Ok(s.(output := Some(FailureMessage(s.validationError.value))))
    else if s.disasterType.None? || s.country.None? then Err(NoneTitle)
    else Ok(s.(output := Some(SuccessMessage(s.disasterType.value, s.country.value, s.year, s.dashboardPath, s.reportPath))))
  }

  // ---------------------------------------------------------------------------
  // The graph
  // ---------------------------------------------------------------------------

  datatype Route = ToHandleError | ToRetrieveData

  /** The conditional edge after validate_input: key presence of validation_error. */
  function RouteAfterValidation(s: AgentState): (r: Route)
    ensures r == ToHandleError <==> s.validationError.Some?
  {
    if s.validationError.Some? then ToHandleError else ToRetrieveData
  }

  /** The states after parse_input and validate_input. */
  function Validated(prompt: string, cs: Collaborators): AgentState
  {
    ValidateInput(ParseInput(Initial(prompt), cs))
  }

  /** The main path from retrieve_data up to generate_report. */
  function BeforeReport(s: AgentState, cs: Collaborators): AgentState
  {
    ForecastNode(VisualizeNode(AnalyzeNode(RetrieveNode(s, cs), cs), cs), cs)
  }

  /** The main path from retrieve_data to generate_report, with the report agent given. */
  function MainPath(s: AgentState, cs: Collaborators, report: ReportInput -> Result<string, string>): AgentState
  {
    ReportNode(BeforeReport(s, cs), report)
  }

  /** app.invoke({"prompt": prompt}), with the report agent given: the final state, or format_final_output's exception. */
  function RunWith(prompt: string, cs: Collaborators, report: ReportInput -> Result<string, string>): Result<AgentState, string>
  {
    var v := Validated(prompt, cs);
    match RouteAfterValidation(v)
    case ToHandleError => Ok(HandleError(v))
    case ToRetrieveData => FormatNode(MainPath(v, cs, report))
  }

  /** The pipeline with the report agent the collaborators give (the intended call). */
  function Run(prompt: string, cs: Collaborators): Result<AgentState, string>
  {
    RunWith(prompt, cs, cs.report)
  }

  /** The pipeline as written: the report agent's constructor always raises. */
  function RunAsWritten(prompt: string, cs: Collaborators): Result<AgentState, string>
  {
    RunWith(prompt, cs, ReportAsWritten)
  }

  // ---------------------------------------------------------------------------
  // Properties
  // ---------------------------------------------------------------------------

  /**
   * The route goes to handle_error exactly when validation_error is present;
   * that run ends with "Input error: " and the validator's message, and no data
   * field is set.
   */
  lemma InputErrorPath(prompt: string, cs: Collaborators)
    ensures var v := Validated(prompt, cs);
      var r := RunWith(prompt, cs, cs.report);
      (RouteAfterValidation(v) == ToHandleError <==> !Truthy(v.disasterType) || !Truthy(v.country))
      && (RouteAfterValidation(v) == ToHandleError ==>
            r == Ok(v.(output := Some("Input error: " + MissingFields)))
            && r.value.rawData.None? && r.value.summaryStats.None? && r.value.enhancedStats.None?
            && r.value.eventPatterns.None? && r.value.dashboardPath.None? && r.value.reportPath.None?
            && r.value.forecastData.None?)
  {
  }

  /** The parsed disaster type and country reach the main path from the parser, and are truthy there. */
  lemma MainPathInputs(prompt: string, cs: Collaborators)
    requires ValidOrders(cs)
    ensures var v := Validated(prompt, cs);
      var n := InputParser.Normalise(prompt);
      RouteAfterValidation(v) == ToRetrieveData ==>
        v.validationError.None? && Truthy(v.disasterType) && Truthy(v.country)
        && v.disasterType.value in InputParser.DisasterTypes && InputParser.MatchesWholeWord(n, v.disasterType.value)
        && v.country.value in InputParser.Countries && InputParser.MatchesWholeWord(n, v.country.value)
  {
  }

  /** The nodes after analyze_statistics return a state with an error unchanged. */
  lemma ErrorSkipsLaterNodes(s: AgentState, cs: Collaborators, report: ReportInput -> Result<string, string>)
    requires Truthy(s.validationError)
    ensures VisualizeNode(s, cs) == s && ForecastNode(s, cs) == s && ReportNode(s, report) == s
  {
  }

  /**
   * retrieve_data: with a summary, the frame and the summary are stored and
   * the error is left as it was; a summary's exception is folded into the error
   * and the output, and nothing else changes.
   */
  lemma RetrieveOutcome(s: AgentState, cs: Collaborators)
    ensures var df := cs.retrieve(s.disasterType, s.country, s.year);
      var stats := cs.summarize(df);
      var r := RetrieveNode(s, cs);
      (stats.Ok? ==>
         r == s.(rawData := Some(df), summaryStats := Some(stats.value), output := Some("Data retrieved successfully")))
      && (stats.Err? ==>
         r == s.(validationError := Some("Data retrieval failed: " + stats.error),
                 output := Some("Error retrieving data: " + stats.error)))
  {
  }

  /**
   * generate_visualizations: an earlier error passes through unchanged; a
   * falsy summary sets only the output and a None dashboard path; otherwise
   * the dashboard's path is stored, or its exception is folded into the error.
   */
  lemma VisualizeOutcome(s: AgentState, cs: Collaborators)
    ensures var r := VisualizeNode(s, cs);
      (Truthy(s.validationError) ==> r == s)
      && (!Truthy(s.validationError) && !TruthyStats(s.summaryStats) ==>
            r == s.(output := Some("No data available for visualization"), dashboardPath := None))
      && (!Truthy(s.validationError) && TruthyStats(s.summaryStats) ==>
            var d := cs.dashboard(s.summaryStats.value);
            (d.Ok? ==> r == s.(dashboardPath := Some(d.value), output := Some("Visualizations generated at " + d.value)))
            && (d.Err? ==> r == s.(validationError := Some("Visualization failed: " + d.error),
                                   output := Some("Error generating visualizations: " + d.error))))
  {
  }

  /**
   * generate_report with all five inputs and no earlier error: the report
   * agent's path is stored with its message, or its exception is folded into
   * the error; nothing else changes.
   */
  lemma ReportOutcome(s: AgentState, report: ReportInput -> Result<string, string>)
    requires !Truthy(s.validationError) && HasReportData(s)
    ensures var a := report(ReportArguments(s));
      var r := ReportNode(s, report);
      (a.Ok? ==> r == s.(reportPath := Some(a.value), output := Some("Final report generated at " + a.value)))
      && (a.Err? ==> r == s.(validationError := Some("Report generation failed: " + a.error),
                             output := Some("Error generating report: " + a.error)))
  {
  }

  /**
   * analyze_statistics does not relay an error: a failed retrieval leaves
   * summary_stats None, and the analysis overwrites the retrieval's error with
   * its own.
   */
  lemma RetrievalErrorOverwritten(s: AgentState, cs: Collaborators)
    requires s.summaryStats.None?
    requires RetrieveNode(s, cs).validationError != s.validationError
    ensures RetrieveNode(s, cs).summaryStats.None?
    ensures AnalyzeNode(RetrieveNode(s, cs), cs).validationError == Some(NoStatisticsForAnalysis)
  {
  }

  /**
   * analyze_statistics: a falsy summary gives its own error; an exception of
   * either analyzer call is folded into the error; otherwise the error is left
   * as it was, the patterns carry the three pattern keys, and the summary
   * becomes the old summary merged with the patterns, the patterns winning.
   */
  lemma AnalyzeOutcome(s: AgentState, cs: Collaborators)
    ensures var r := AnalyzeNode(s, cs);
      (!TruthyStats(s.summaryStats) ==> r.validationError == Some(NoStatisticsForAnalysis))
      && (TruthyStats(s.summaryStats) ==>
            var stats := s.summaryStats.value;
            (cs.coreStats(stats).Err? ==>
               r.validationError == Some("Statistical analysis failed: " + cs.coreStats(stats).error))
            && (cs.coreStats(stats).Ok? && cs.eventPatterns(stats).Err? ==>
               r.validationError == Some("Statistical analysis failed: " + cs.eventPatterns(stats).error))
            && (cs.coreStats(stats).Ok? && cs.eventPatterns(stats).Ok? ==>
               r.validationError == s.validationError
               && r.enhancedStats == Some(cs.coreStats(stats).value)
               && r.eventPatterns.Some?
               && PatternKeysFrom(r.eventPatterns.value, cs.eventPatterns(stats).value)
               && r.summaryStats == Some(stats.Merge(r.eventPatterns.value))
               && MergedPatterns(r.summaryStats.value, r.eventPatterns.value)
               && r.output == Some("Statistical analysis completed")))
  {
  }

  /** `p` has the three pattern keys: the analyzer's value where it gave one, the empty default otherwise. */
  predicate PatternKeysFrom(p: Stats, found: Stats) {
    p.commonLocations == (if found.commonLocations.Present? then found.commonLocations else Present([]))
    && p.eventsPerYear == (if found.eventsPerYear.Present? then found.eventsPerYear else Present([]))
    && p.geospatialClusters == (if found.geospatialClusters.Present? then found.geospatialClusters else Present(NoClusters))
  }

  /** The merged summary carries the patterns' three keys. */
  predicate MergedPatterns(merged: Stats, p: Stats) {
    merged.commonLocations == p.commonLocations && merged.eventsPerYear == p.eventsPerYear
    && merged.geospatialClusters == p.geospatialClusters
  }

  /** With the analyzer's model, a summary that is only the "message" sentinel fails the analysis with the KeyError. */
  lemma AnalyzeMessageOnly(s: AgentState, cs: Collaborators, m: string)
    requires s.summaryStats == Some(MessageOnly(m))
    requires cs.coreStats(MessageOnly(m)) == Statistical.CoreStats(MessageOnly(m))
    ensures AnalyzeNode(s, cs).validationError == Some("Statistical analysis failed: " + KeyErrorText("total_deaths"))
  {
    Statistical.CoreStatsOfMessage(m);
  }

  /**
   * With the retrieval agent's model, a failed query gives the fallback
   * frame, an empty one, whose summary is the "message" sentinel: retrieve_data
   * reports success and the analysis is what fails.
   */
  lemma RetrievalFallback(s: AgentState, cs: Collaborators, db: DataRetrieve.Database)
    requires var f := DataRetrieve.Retrieve(db, DataRetrieve.TableName, s.disasterType, s.country, YearArgument(s.year),
                                            DataRetrieve.DefaultLimit);
      cs.retrieve(s.disasterType, s.country, s.year) == f && cs.summarize(f) == DataRetrieve.SummaryStats(f)
    requires var y := YearArgument(s.year);
      db(DataRetrieve.QueryText(DataRetrieve.BaseQuery(DataRetrieve.TableName), s.disasterType, s.country, y,
                                DataRetrieve.DefaultLimit),
         DataRetrieve.ParamsFor(s.disasterType, s.country, y)).Err?
    ensures var r := RetrieveNode(s, cs);
      r.validationError == s.validationError
      && r.rawData == Some(DataRetrieve.Frame(DataRetrieve.FallbackColumns, []))
      && r.summaryStats == Some(MessageOnly(DataRetrieve.NoDataMessage))
  {
  }

  /**
   * generate_forecast_data: without an earlier error, with both names, a
   * truthy "error" of the forecast becomes the error, and otherwise the
   * forecast is stored.
   */
  lemma ForecastOutcome(s: AgentState, cs: Collaborators)
    requires !Truthy(s.validationError) && Truthy(s.disasterType) && Truthy(s.country)
    ensures var data := cs.forecast(ForecastPrompt(s.disasterType.value, s.country.value, s.year));
      var r := ForecastNode(s, cs);
      (Truthy(data.error) ==> r.validationError == Some("Forecast generation failed: " + data.error.value))
      && (!Truthy(data.error) ==> r == s.(forecastData := Some(data), output := Some("Forecast data generated successfully")))
  {
  }

  /** With the forecast's model, its insufficient-data warning becomes the pipeline's error. */
  lemma ForecastWarningIsError(s: AgentState, cs: Collaborators, sv: Forecasting.Services)
    requires !Truthy(s.validationError) && Truthy(s.disasterType) && Truthy(s.country)
    requires var p := ForecastPrompt(s.disasterType.value, s.country.value, s.year);
      var m := Forecasting.InferMetric(p);
      var q := sv.query(Forecasting.ForecastQuery(m, Forecasting.WhereClause(m, Forecasting.FiltersFor(p))));
      cs.forecast(p) == Forecasting.Forecast(p, sv) && q.Ok? && |Forecasting.History(q.value)| < Forecasting.MinRows
    ensures ForecastNode(s, cs).validationError == Some("Forecast generation failed: " + Forecasting.NotEnoughData)
  {
    Forecasting.ForecastNeedsFiveRows(ForecastPrompt(s.disasterType.value, s.country.value, s.year), sv);
  }

  /** generate_report without an earlier error: the insufficient-data error exactly when a required field is falsy. */
  lemma ReportRequiresData(s: AgentState, report: ReportInput -> Result<string, string>)
    requires !Truthy(s.validationError)
    ensures ReportNode(s, report).validationError == Some(InsufficientForReport) <==> !HasReportData(s)
  {
    if HasReportData(s) && report(ReportArguments(s)).Err? {
      var e := report(ReportArguments(s)).error;
      assert ("Report generation failed: " + e)[0] == 'R';
    }
  }

  /**
   * A run whose final state has no error printed the success message: the
   * parsed names title-cased, the Year line for a truthy year, and the
   * dashboard and report lines for truthy paths; format_final_output never
   * raises on such a run.
   */
  lemma RunOutcome(prompt: string, cs: Collaborators, report: ReportInput -> Result<string, string>)
    ensures var r := RunWith(prompt, cs, report);
      r.Ok?
      && (Truthy(r.value.validationError) ==> r.value.output == Some(
            if RouteAfterValidation(Validated(prompt, cs)) == ToHandleError then "Input error: " + r.value.validationError.value
            else FailureMessage(r.value.validationError.value)))
      && (!Truthy(r.value.validationError) ==>
            r.value.disasterType.Some? && r.value.country.Some?
            && r.value.output == Some(SuccessMessage(r.value.disasterType.value, r.value.country.value, r.value.year,
                                                     r.value.dashboardPath, r.value.reportPath)))
  {
    var v := Validated(prompt, cs);
    if RouteAfterValidation(v) == ToRetrieveData {
      MainPathKeepsNames(v, cs, report);
    }
  }

  /** The main path keeps the parsed names and, when it ends without an error, had all of them. */
  lemma MainPathKeepsNames(v: AgentState, cs: Collaborators, report: ReportInput -> Result<string, string>)
    requires v.validationError.None? && Truthy(v.disasterType) && Truthy(v.country)
    ensures var m := MainPath(v, cs, report);
      m.disasterType == v.disasterType && m.country == v.country && m.year == v.year && ErrorIsTruthy(m)
  {
    var s1 := RetrieveNode(v, cs);
    var s2 := AnalyzeNode(s1, cs);
    var s3 := VisualizeNode(s2, cs);
    var s4 := ForecastNode(s3, cs);
  }

  /**
   * As written, no run succeeds: every run that gets past validation ends with
   * a failure message, because the report step always raises unless an earlier
   * step failed first.
   */
  lemma RunAsWrittenNeverSucceeds(prompt: string, cs: Collaborators)
    ensures var r := RunAsWritten(prompt, cs);
      r.Ok? && Truthy(r.value.validationError)
  {
    var v := Validated(prompt, cs);
    RunOutcome(prompt, cs, ReportAsWritten);
    if RouteAfterValidation(v) == ToRetrieveData {
      var s4 := ForecastNode(VisualizeNode(AnalyzeNode(RetrieveNode(v, cs), cs), cs), cs);
      MainPathKeepsNames(v, cs, ReportAsWritten);
      if !Truthy(s4.validationError) {
        if HasReportData(s4) {
          ReportAsWrittenAlwaysFails(s4);
        }
      }
    }
  }

  /** With the intended report agent, a run that ends without an error had every report input and a report path. */
  lemma RunWithoutErrorHasReport(prompt: string, cs: Collaborators)
    requires Run(prompt, cs).Ok? && !Truthy(Run(prompt, cs).value.validationError)
    ensures Run(prompt, cs).value.reportPath.Some?
    ensures HasReportData(Run(prompt, cs).value)
  {
    var v := Validated(prompt, cs);
    if RouteAfterValidation(v) == ToRetrieveData {
      var s4 := BeforeReport(v, cs);
      var m := ReportNode(s4, cs.report);
      assert Run(prompt, cs) == FormatNode(m);
      assert !Truthy(s4.validationError);
    }
  }

  /**
   * With the intended report agent, a prompt that passes validation, with
   * every collaborator succeeding with non-empty data, ends without an error
   * and with the report agent's path for the arguments the pipeline built;
   * the same run as written ends with the constructor's TypeError instead.
   */
  lemma RunReportsPath(prompt: string, cs: Collaborators)
    requires RouteAfterValidation(Validated(prompt, cs)) == ToRetrieveData
    requires forall f :: cs.summarize(f).Ok? && !cs.summarize(f).value.IsEmpty()
    requires forall st :: cs.coreStats(st).Ok? && !cs.coreStats(st).value.IsEmpty()
    requires forall st :: cs.eventPatterns(st).Ok?
    requires forall st :: cs.dashboard(st).Ok?
    requires forall p :: !Truthy(cs.forecast(p).error)
    requires forall a :: cs.report(a).Ok?
    ensures var s4 := BeforeReport(Validated(prompt, cs), cs);
      var r := Run(prompt, cs);
      HasReportData(s4) && r.Ok? && r.value.validationError.None?
      && r.value.reportPath == Some(cs.report(ReportArguments(s4)).value)
      && RunAsWritten(prompt, cs).Ok?
      && RunAsWritten(prompt, cs).value.validationError == Some("Report generation failed: " + UnexpectedForecastData)
  {
    var v := Validated(prompt, cs);
    var s4 := BeforeReport(v, cs);
    assert v.validationError.None? && Truthy(v.disasterType) && Truthy(v.country);
    MainPathReachesReport(v, cs);
    ReportOutcome(s4, cs.report);
    ReportAsWrittenAlwaysFails(s4);
    ReportOutcome(s4, ReportAsWritten);
  }

  /** With every collaborator succeeding, the main path reaches the report step without error and with its data. */
  lemma MainPathReachesReport(v: AgentState, cs: Collaborators)
    requires v.validationError.None? && Truthy(v.disasterType) && Truthy(v.country)
    requires forall f :: cs.summarize(f).Ok? && !cs.summarize(f).value.IsEmpty()
    requires forall st :: cs.coreStats(st).Ok? && !cs.coreStats(st).value.IsEmpty()
    requires forall st :: cs.eventPatterns(st).Ok?
    requires forall st :: cs.dashboard(st).Ok?
    requires forall p :: !Truthy(cs.forecast(p).error)
    ensures var s4 := BeforeReport(v, cs);
      s4.validationError.None? && HasReportData(s4)
  {
    var s1 := RetrieveNode(v, cs);
    var s2 := AnalyzeNode(s1, cs);
    var s3 := VisualizeNode(s2, cs);
    var s4 := ForecastNode(s3, cs);
    assert s1.validationError.None? && TruthyStats(s1.summaryStats);
    var stats := s1.summaryStats.value;
    var patterns := WithPatternKeys(cs.eventPatterns(stats).value);
    assert !patterns.IsEmpty();
    assert s2.validationError.None? && TruthyStats(s2.summaryStats) && TruthyStats(s2.enhancedStats)
      && TruthyStats(s2.eventPatterns);
    assert s3.validationError.None?;
    assert s4.validationError.None? && HasReportData(s4);
  }
}
