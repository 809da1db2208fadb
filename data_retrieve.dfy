/**
 * The retrieval agent: the parameterised SQL text and its params dict built
 * from the parsed filters, the fallback frame when the query fails, and the
 * summary statistics over the retrieved rows.
 *
 * The database is a collaborator: given the query text and the params it
 * returns the typed rows, or fails with a message.
 */
module DataRetrieve {
  import opened Wrappers
  import opened Text
  import opened Collections
  import opened Records

  // ---------------------------------------------------------------------------
  // Query text and params
  // ---------------------------------------------------------------------------

  const TableName: string := "DISASTER_TABLE"

  /** The SELECT list as the query lays it out, one line per group of columns. */
  const SelectLines: seq<seq<string>> := [
    ["DISNO", "HISTORIC", "DISASTER_TYPE", "DISASTER_SUBTYPE"],
    ["EVENT_NAME", "COUNTRY", "REGION", "SUBREGION"],
    ["START_YEAR", "START_MONTH", "START_DAY"],
    ["TOTAL_DEATHS", "NO_AFFECTED", "TOTAL_DAMAGE_000_USD"],
    ["LATITUDE", "LONGITUDE", "LOCATION"]
  ]

  /** How each line of the SELECT list ends (the first has a space after its comma). */
  const LineEnds: seq<string> := [", \n", ",\n", ",\n", ",\n", "\n"]

  /** The columns of the SELECT list, which the frame of a successful query has. */
  const SelectColumns: seq<string> := Flatten(SelectLines)

  function Flatten(ls: seq<seq<string>>): seq<string> {
    if ls == [] then [] else ls[0] + Flatten(ls[1..])
  }

  /** Lines of column names, each indented by twelve spaces. */
  function SelectBlock(ls: seq<seq<string>>, ends: seq<string>): string
    requires |ls| == |ends|
  {
    if ls == [] then "" else "            " + Join(ls[0], ", ") + ends[0] + SelectBlock(ls[1..], ends[1..])
  }

  /** The SELECT list as laid out in the query text. */
  const SelectList: string := SelectBlock(SelectLines, LineEnds)

  /** The f-string the query starts from, for the agent's table, with its line breaks and indentation. */
  function BaseQuery(table: string): string {
    "\n        SELECT \n" + SelectList
    + "        FROM " + table + "\n        WHERE 1=1\n        "
  }

  /** The columns of the empty frame returned when the query fails. */
  const FallbackColumns: seq<string> := ["EVENT_NAME", "START_YEAR", "TOTAL_DEATHS", "NO_AFFECTED"]

  const DefaultLimit: int := 10000

  /** The `year` argument: None, a single year, or a (start_year, end_year) tuple. */
  datatype YearFilter = NoYear | SingleYear(year: int) | YearRange(start: int, end: int)

  /** Python truthiness of the year argument: None and 0 are false, every tuple is true. */
  predicate YearGiven(y: YearFilter) {
    match y
    case NoYear => false
    case SingleYear(v) => v != 0
    case YearRange(_, _) => true
  }

  /** Python truthiness of an optional string. */
  predicate Given(s: Option<string>) {
    s.Some? && s.value != ""
  }

  /** A value bound to a placeholder. */
  datatype ParamValue = SqlText(text: string) | SqlInt(number: int)

  /** The pyformat placeholder `%(name)s`. */
  function Placeholder(name: string): string {
    "%(" + name + ")s"
  }

  const DisasterFilter: string := " AND LOWER(DISASTER_TYPE) = " + Placeholder("disaster_type")
  const CountryFilter: string := " AND LOWER(COUNTRY) = " + Placeholder("country")
  const BetweenFilter: string := " AND START_YEAR BETWEEN " + Placeholder("start_year") + " AND " + Placeholder("end_year")
  const EqualsFilter: string := " AND START_YEAR = " + Placeholder("year")

  function DisasterClause(d: Option<string>): string {
    if Given(d) then DisasterFilter else ""
  }

  function CountryClause(c: Option<string>): string {
    if Given(c) then CountryFilter else ""
  }

  function YearClause(y: YearFilter): string {
    if !YearGiven(y) then "" else if y.YearRange? then BetweenFilter else EqualsFilter
  }

  function LimitClause(limit: int): string {
    " LIMIT " + IntToString(limit)
  }

  /** The query retrieve_data sends: the head (BaseQuery of the table), the filters, the limit. */
  function QueryText(head: string, d: Option<string>, c: Option<string>, y: YearFilter, limit: int): string {
    head + DisasterClause(d) + CountryClause(c) + YearClause(y) + LimitClause(limit)
  }

  /** The params dict retrieve_data sends with the query. */
  function ParamsFor(d: Option<string>, c: Option<string>, y: YearFilter): map<string, ParamValue> {
    var p0 := map[];
    var p1 := if Given(d) then p0["disaster_type" := SqlText(Lower(d.value))] else p0;
    var p2 := if Given(c) then p1["country" := SqlText(Lower(c.value))] else p1;
    if !YearGiven(y) then p2
    else match y
      case YearRange(s, e) => p2["start_year" := SqlInt(s)]["end_year" := SqlInt(e)]
      case SingleYear(v) => p2["year" := SqlInt(v)]
  }

  function YearNames(y: YearFilter): seq<string> {
    if !YearGiven(y) then [] else if y.YearRange? then ["start_year", "end_year"] else ["year"]
  }

  /** The placeholder names the query carries, in the order the filters are appended. */
  function PlaceholderNames(d: Option<string>, c: Option<string>, y: YearFilter): seq<string> {
    (if Given(d) then ["disaster_type"] else []) + (if Given(c) then ["country"] else []) + YearNames(y)
  }

  /** Grow the query and the params one filter at a time. */
  method BuildQuery(head: string, d: Option<string>, c: Option<string>, y: YearFilter, limit: int)
    returns (query: string, params: map<string, ParamValue>)
    ensures query == QueryText(head, d, c, y, limit)
    ensures params == ParamsFor(d, c, y)
  {
    query := head;
    params := map[];
    if Given(d) {
      query := query + DisasterFilter;
      params := params["disaster_type" := SqlText(Lower(d.value))];
    } else {
      AppendEmpty(query);
    }
    if Given(c) {
      query := query + CountryFilter;
      params := params["country" := SqlText(Lower(c.value))];
    } else {
      AppendEmpty(query);
    }
    if !YearGiven(y) {
      AppendEmpty(query);
    } else {
      match y {
        case YearRange(s, e) =>
          query := query + BetweenFilter;
          params := params["start_year" := SqlInt(s)];
          params := params["end_year" := SqlInt(e)];
        case SingleYear(v) =>
          query := query + EqualsFilter;
          params := params["year" := SqlInt(v)];
      }
    }
    query := query + LimitClause(limit);
  }

  // ---------------------------------------------------------------------------
  // Placeholders in a query text
  // ---------------------------------------------------------------------------

  /** The names of the `%(name)` placeholders of `s`, from left to right. */
  function Placeholders(s: string): seq<string>
    decreases |s|
  {
    if |s| < 2 then []
    else if s[0] == '%' && s[1] == '(' then
      match IndexOf(s[2..], ")")
      case None => []
      case Some(j) => [s[2..2 + j]] + Placeholders(s[2 + j + 1..])
    else Placeholders(s[1..])
  }

  /** Text without '%' contributes no placeholder. */
  lemma {:induction false} PlainTextFirst(pre: string, rest: string)
    requires '%' !in pre
    decreases |pre|
    ensures Placeholders(pre + rest) == Placeholders(rest)
  {
    if pre != [] {
      var s := pre + rest;
      assert s[0] == pre[0] && s[0] != '%';
      if |s| >= 2 {
        assert s[1..] == pre[1..] + rest;
        assert '%' !in pre[1..] by {
          forall i | 0 <= i < |pre| - 1 ensures pre[1..][i] != '%' { assert pre[1..][i] == pre[i + 1]; }
        }
        PlainTextFirst(pre[1..], rest);
      } else {
        assert rest == [];
      }
    } else {
      assert pre + rest == rest;
    }
  }

  /** A placeholder followed by more text. */
  lemma PlaceholderFirst(name: string, rest: string)
    requires ')' !in name
    ensures Placeholders("%(" + name + ")" + rest) == [name] + Placeholders(rest)
  {
    var s := "%(" + name + ")" + rest;
    var tail := s[2..];
    assert tail == name + ")" + rest;
    assert IndexOf(tail, ")") == Some(|name|) by {
      assert OccursAt(tail, ")", |name|) by {
        assert tail[|name|..|name| + 1] == ")";
      }
      forall i | 0 <= i < |name| ensures !OccursAt(tail, ")", i) {
        assert tail[i..i + 1][0] == tail[i] == name[i];
      }
    }
    assert s[0] == '%' && s[1] == '(';
    assert s[2..2 + |name|] == name;
    assert s[2 + |name| + 1..] == rest;
  }

  /** Text without '%', then one placeholder, then more text. */
  lemma ClauseFirst(pre: string, name: string, rest: string)
    requires '%' !in pre && ')' !in name
    ensures Placeholders(pre + Placeholder(name) + rest) == [name] + Placeholders(rest)
  {
    assert pre + Placeholder(name) + rest == pre + ("%(" + name + ")" + ("s" + rest));
    PlainTextFirst(pre, "%(" + name + ")" + ("s" + rest));
    PlaceholderFirst(name, "s" + rest);
    PlainTextFirst("s", rest);
  }

  lemma YearClausePlaceholders(y: YearFilter, rest: string)
    ensures Placeholders(YearClause(y) + rest) == YearNames(y) + Placeholders(rest)
  {
    if YearGiven(y) && y.YearRange? {
      var second := " AND " + Placeholder("end_year");
      assert BetweenFilter + rest == " AND START_YEAR BETWEEN " + Placeholder("start_year") + (second + rest);
      assert second + rest == " AND " + Placeholder("end_year") + rest;
      ClauseFirst(" AND START_YEAR BETWEEN ", "start_year", second + rest);
      ClauseFirst(" AND ", "end_year", rest);
    } else if YearGiven(y) {
      ClauseFirst(" AND START_YEAR = ", "year", rest);
    } else {
      assert YearClause(y) + rest == rest;
    }
  }

  lemma CountryClausePlaceholders(c: Option<string>, rest: string)
    ensures Placeholders(CountryClause(c) + rest) == (if Given(c) then ["country"] else []) + Placeholders(rest)
  {
    if Given(c) {
      ClauseFirst(" AND LOWER(COUNTRY) = ", "country", rest);
    } else {
      assert CountryClause(c) + rest == rest;
    }
  }

  lemma DisasterClausePlaceholders(d: Option<string>, rest: string)
    ensures Placeholders(DisasterClause(d) + rest) == (if Given(d) then ["disaster_type"] else []) + Placeholders(rest)
  {
    if Given(d) {
      ClauseFirst(" AND LOWER(DISASTER_TYPE) = ", "disaster_type", rest);
    } else {
      assert DisasterClause(d) + rest == rest;
    }
  }

  lemma {:induction false} JoinPlain(parts: seq<string>, sep: string)
    requires forall k :: 0 <= k < |parts| ==> '%' !in parts[k]
    requires '%' !in sep
    ensures '%' !in Join(parts, sep)
  {
    if |parts| > 1 {
      JoinPlain(parts[1..], sep);
    }
  }

  lemma {:induction false} SelectBlockPlain(ls: seq<seq<string>>, ends: seq<string>)
    requires |ls| == |ends|
    requires forall k, m :: 0 <= k < |ls| && 0 <= m < |ls[k]| ==> '%' !in ls[k][m]
    requires forall k :: 0 <= k < |ends| ==> '%' !in ends[k]
    ensures '%' !in SelectBlock(ls, ends)
  {
    if ls != [] {
      JoinPlain(ls[0], ", ");
      SelectBlockPlain(ls[1..], ends[1..]);
    }
  }

  lemma SelectLinesPlain()
    ensures forall k, m :: 0 <= k < |SelectLines| && 0 <= m < |SelectLines[k]| ==> '%' !in SelectLines[k][m]
  {
  }

  lemma SelectListPlain()
    ensures '%' !in SelectList
  {
    SelectLinesPlain();
    SelectBlockPlain(SelectLines, LineEnds);
  }

  /** The head of the query has no placeholder. */
  lemma BaseQueryPlain(table: string)
    requires '%' !in table
    ensures '%' !in BaseQuery(table)
  {
    var block := SelectList;
    SelectListPlain();
    PlainAppend("\n        SELECT \n", block);
    PlainAppend("\n        SELECT \n" + block, "        FROM ");
    PlainAppend("\n        SELECT \n" + block + "        FROM ", table);
    PlainAppend("\n        SELECT \n" + block + "        FROM " + table, "\n        WHERE 1=1\n        ");
  }

  lemma PlainAppend(a: string, b: string)
    requires '%' !in a && '%' !in b
    ensures '%' !in a + b
  {
  }

  lemma LimitClausePlaceholders(limit: int)
    ensures Placeholders(LimitClause(limit)) == []
  {
    var r := NatToString(if limit < 0 then -limit else limit);
    assert forall i :: 0 <= i < |r| ==> r[i] != '%';
    assert LimitClause(limit) == (if limit < 0 then " LIMIT -" else " LIMIT ") + r;
    PlainTextFirst(if limit < 0 then " LIMIT -" else " LIMIT ", r);
    PlainTextFirst(r, []);
    assert r + [] == r;
  }

  /**
   * The placeholders of the query are exactly the keys of the params, in the
   * order disaster type, country, year: every bound value has its slot and no
   * slot is left unbound.
   */
  lemma QueryPlaceholders(head: string, d: Option<string>, c: Option<string>, y: YearFilter, limit: int)
    requires '%' !in head
    ensures Placeholders(QueryText(head, d, c, y, limit)) == PlaceholderNames(d, c, y)
    ensures (set p | p in PlaceholderNames(d, c, y)) == ParamsFor(d, c, y).Keys
  {
    PlaceholdersOfFilters(head, d, c, y, limit);
    NamesAreParamKeys(d, c, y);
  }

  /** Each placeholder name is a key of the params, and each key is named once. */
  lemma NamesAreParamKeys(d: Option<string>, c: Option<string>, y: YearFilter)
    ensures (set p | p in PlaceholderNames(d, c, y)) == ParamsFor(d, c, y).Keys
  {
  }

  lemma PlaceholdersOfFilters(head: string, d: Option<string>, c: Option<string>, y: YearFilter, limit: int)
    requires '%' !in head
    ensures Placeholders(QueryText(head, d, c, y, limit)) == PlaceholderNames(d, c, y)
  {
    var l := LimitClause(limit);
    var yl := YearClause(y) + l;
    var cyl := CountryClause(c) + yl;
    var dcyl := DisasterClause(d) + cyl;
    LimitClausePlaceholders(limit);
    YearClausePlaceholders(y, l);
    CountryClausePlaceholders(c, yl);
    DisasterClausePlaceholders(d, cyl);
    assert Placeholders(dcyl) == PlaceholderNames(d, c, y);
    var b := head;
    AppendAssoc(b + DisasterClause(d) + CountryClause(c), YearClause(y), l);
    AppendAssoc(b + DisasterClause(d), CountryClause(c), yl);
    AppendAssoc(b, DisasterClause(d), cyl);
    PlainTextFirst(head, dcyl);
  }

  /** The same for the query the agent sends on a table whose name has no '%'. */
  lemma RetrieveQueryPlaceholders(table: string, d: Option<string>, c: Option<string>, y: YearFilter, limit: int)
    requires '%' !in table
    ensures Placeholders(QueryText(BaseQuery(table), d, c, y, limit)) == PlaceholderNames(d, c, y)
  {
    BaseQueryPlain(table);
    QueryPlaceholders(BaseQuery(table), d, c, y, limit);
  }

  /** The query text depends on which filters are given, never on their values. */
  lemma QueryIgnoresValues(head: string, d: Option<string>, c: Option<string>, y: YearFilter,
                           d': Option<string>, c': Option<string>, y': YearFilter, limit: int)
    requires Given(d) == Given(d') && Given(c) == Given(c')
    requires YearGiven(y) == YearGiven(y') && y.YearRange? == y'.YearRange?
    ensures QueryText(head, d, c, y, limit) == QueryText(head, d', c', y', limit)
  {
  }

  /** Filter values reach the params lower-cased; a tuple binds both bounds, a single year one. */
  lemma ParamsValues(d: Option<string>, c: Option<string>, y: YearFilter)
    ensures Given(d) <==> "disaster_type" in ParamsFor(d, c, y)
    ensures Given(d) ==> ParamsFor(d, c, y)["disaster_type"] == SqlText(Lower(d.value))
    ensures Given(c) <==> "country" in ParamsFor(d, c, y)
    ensures Given(c) ==> ParamsFor(d, c, y)["country"] == SqlText(Lower(c.value))
    ensures (YearGiven(y) && y.YearRange?) <==> "start_year" in ParamsFor(d, c, y)
    ensures YearGiven(y) && y.YearRange? ==>
      ParamsFor(d, c, y)["start_year"] == SqlInt(y.start) && ParamsFor(d, c, y)["end_year"] == SqlInt(y.end)
    ensures (YearGiven(y) && y.SingleYear?) <==> "year" in ParamsFor(d, c, y)
    ensures YearGiven(y) && y.SingleYear? ==> ParamsFor(d, c, y)["year"] == SqlInt(y.year)
  {
  }

  /** The query is the fixed head, then the filters, and " LIMIT n" last. */
  lemma QueryShape(head: string, d: Option<string>, c: Option<string>, y: YearFilter, limit: int)
    ensures var q := QueryText(head, d, c, y, limit);
      |q| >= |head| + |LimitClause(limit)|
      && q[..|head|] == head
      && q[|q| - |LimitClause(limit)|..] == LimitClause(limit)
  {
    var b := head;
    var dc := DisasterClause(d) + CountryClause(c);
    var m := dc + YearClause(y);
    AppendAssoc(b, DisasterClause(d), CountryClause(c));
    AppendAssoc(b, dc, YearClause(y));
    AppendParts(b + m, LimitClause(limit));
    AppendParts(b, m);
  }

  // ---------------------------------------------------------------------------
  // Frames
  // ---------------------------------------------------------------------------

  /**
   * A row of the result, with the columns the model reads, after numeric
   * coercion: None stands for NULL or NaN.
   */
  datatype Row = Row(
    disasterType: Option<string>, eventName: Option<string>, country: Option<string>,
    startYear: Option<int>, totalDeaths: Option<int>, noAffected: Option<int>,
    totalDamage000Usd: Option<int>, location: Option<string>)

  datatype Frame = Frame(columns: seq<string>, rows: seq<Row>) {
    /** DataFrame.empty: no rows or no columns. */
    predicate IsEmpty() {
      rows == [] || columns == []
    }
  }

  /** What the database collaborator answers for a query and its params. */
  type Database = (string, map<string, ParamValue>) -> Result<seq<Row>, string>

  /** retrieve_data's frame: the rows under the SELECT columns, or the empty fallback frame. */
  function Retrieve(db: Database, table: string, d: Option<string>, c: Option<string>, y: YearFilter, limit: int): (f: Frame)
    ensures f.rows != [] ==> f.columns == SelectColumns
    ensures var q := db(QueryText(BaseQuery(table), d, c, y, limit), ParamsFor(d, c, y));
      (q.Ok? ==> f == Frame(SelectColumns, q.value)) && (q.Err? ==> f == Frame(FallbackColumns, []))
  {
    match db(QueryText(BaseQuery(table), d, c, y, limit), ParamsFor(d, c, y))
    case Ok(rows) => Frame(SelectColumns, rows)
    case Err(_) => Frame(FallbackColumns, [])
  }

  /** retrieve_data: build the query, run it, and never raise. */
  method RetrieveData(db: Database, table: string, d: Option<string>, c: Option<string>, y: YearFilter, limit: int)
    returns (frame: Frame)
    ensures frame == Retrieve(db, table, d, c, y, limit)
  {
    var query, params := BuildQuery(BaseQuery(table), d, c, y, limit);
    var answer := db(query, params);
    if answer.Ok? {
      frame := Frame(SelectColumns, answer.value);
    } else {
      frame := Frame(FallbackColumns, []);
    }
  }

  // ---------------------------------------------------------------------------
  // get_summary_stats
  // ---------------------------------------------------------------------------

  const NoDataMessage: string := "No data matching the criteria"

  /** int() of the NaN that min() and max() give for a column of nulls. */
  const NaNToInt: string := "cannot convert float NaN to integer"

  /** The first of the scalar columns the summary reads that the frame lacks. */
  function MissingColumn(columns: seq<string>): Option<string> {
    if "COUNTRY" !in columns then Some("COUNTRY")
    else if "START_YEAR" !in columns then Some("START_YEAR")
    else if "DISASTER_TYPE" !in columns then Some("DISASTER_TYPE")
    else if "TOTAL_DEATHS" !in columns then Some("TOTAL_DEATHS")
    else if "NO_AFFECTED" !in columns then Some("NO_AFFECTED")
    else None
  }

  /** The columns of the sample projection the frame lacks. */
  function MissingSampleColumns(columns: seq<string>): seq<string> {
    (if "EVENT_NAME" in columns then [] else ["EVENT_NAME"])
    + (if "START_YEAR" in columns then [] else ["START_YEAR"])
    + (if "LOCATION" in columns then [] else ["LOCATION"])
  }

  /** str() of the KeyError of a list lookup with some labels missing. */
  function NotInIndexText(missing: seq<string>): string {
    "\"[" + Join(QuoteAll(missing), ", ") + "] not in index\""
  }

  function QuoteAll(names: seq<string>): (r: seq<string>)
    ensures |r| == |names|
  {
    if names == [] then [] else ["'" + names[0] + "'"] + QuoteAll(names[1..])
  }

  function Countries(rows: seq<Row>): seq<Option<string>> {
    seq(|rows|, i requires 0 <= i < |rows| => rows[i].country)
  }

  function DisasterTypes(rows: seq<Row>): seq<Option<string>> {
    seq(|rows|, i requires 0 <= i < |rows| => rows[i].disasterType)
  }

  function StartYears(rows: seq<Row>): seq<Option<int>> {
    seq(|rows|, i requires 0 <= i < |rows| => rows[i].startYear)
  }

  function Deaths(rows: seq<Row>): seq<Option<int>> {
    seq(|rows|, i requires 0 <= i < |rows| => rows[i].totalDeaths)
  }

  function Affected(rows: seq<Row>): seq<Option<int>> {
    seq(|rows|, i requires 0 <= i < |rows| => rows[i].noAffected)
  }

  function Damage(rows: seq<Row>): seq<Option<int>> {
    seq(|rows|, i requires 0 <= i < |rows| => rows[i].totalDamage000Usd)
  }

  /** One row projected onto EVENT_NAME, START_YEAR, LOCATION. */
  function Sample(r: Row): SampleEvent {
    SampleEvent(r.eventName, r.startYear, r.location)
  }

  /** `head()` of the projection: the first five rows, or all of them if fewer. */
  function SampleEvents(rows: seq<Row>): (s: seq<SampleEvent>)
    ensures |s| == if |rows| < 5 then |rows| else 5
    ensures forall i :: 0 <= i < |s| ==> s[i] == Sample(rows[i])
  {
    var head := Take(rows, 5);
    seq(|head|, i requires 0 <= i < |head| => Sample(head[i]))
  }

  /**
   * get_summary_stats. Ok is the dict it returns; Err is the text of the
   * exception it raises, which the pipeline catches.
   */
  function SummaryStats(frame: Frame): (r: Result<Stats, string>)
    ensures frame.IsEmpty() ==> r == Ok(MessageOnly(NoDataMessage))
    ensures r.Err? <==>
      !frame.IsEmpty()
      && (MissingColumn(frame.columns).Some? || MissingSampleColumns(frame.columns) != []
          || NonNull(StartYears(frame.rows)) == [])
    // Which error: the first read of the dict literal that fails decides it.
    ensures !frame.IsEmpty() && ("COUNTRY" !in frame.columns || "START_YEAR" !in frame.columns) ==>
      r == Err(KeyErrorText(if "COUNTRY" !in frame.columns then "COUNTRY" else "START_YEAR"))
    ensures (!frame.IsEmpty() && "COUNTRY" in frame.columns && "START_YEAR" in frame.columns
             && NonNull(StartYears(frame.rows)) == []) ==> r == Err(NaNToInt)
    ensures !frame.IsEmpty() && NonNull(StartYears(frame.rows)) != [] && MissingColumn(frame.columns).Some? ==>
      r == Err(KeyErrorText(MissingColumn(frame.columns).value))
    ensures (!frame.IsEmpty() && NonNull(StartYears(frame.rows)) != [] && MissingColumn(frame.columns).None?
             && MissingSampleColumns(frame.columns) != []) ==>
      r == Err(NotInIndexText(MissingSampleColumns(frame.columns)))
  {
    if frame.IsEmpty() then Ok(MessageOnly(NoDataMessage))
    // The dict literal reads COUNTRY, then START_YEAR, whose min() of only nulls
    // fails before any later column is read.
    else if "COUNTRY" !in frame.columns || "START_YEAR" !in frame.columns then
      Err(KeyErrorText(MissingColumn(frame.columns).value))
    else if NonNull(StartYears(frame.rows)) == [] then Err(NaNToInt)
    else if MissingColumn(frame.columns).Some? then Err(KeyErrorText(MissingColumn(frame.columns).value))
    else
      var years := NonNull(StartYears(frame.rows));
      if MissingSampleColumns(frame.columns) != [] then Err(NotInIndexText(MissingSampleColumns(frame.columns)))
      else
        var rows := frame.rows;
        Ok(NoStats.(
          totalEvents := Present(|rows|),
          countries := Present(Distinct(Countries(rows))),
          years := Present(YearSpan(Min(years), Max(years))),
          disasterTypes := Present(Distinct(DisasterTypes(rows))),
          totalDeaths := Present(SumNonNull(Deaths(rows))),
          totalAffected := Present(SumNonNull(Affected(rows))),
          totalDamageUsd := Present(
            if "TOTAL_DAMAGE_000_USD" in frame.columns then Some(SumNonNull(Damage(rows)) * 1000) else None),
          sampleEvents := Present(SampleEvents(rows))))
  }

  /**
   * The summary of a non-empty frame: the row count, the distinct countries and
   * disaster types in order of first appearance, the least and greatest
   * non-null year, totals that skip nulls, the damage in dollars, and the
   * first rows as samples.
   */
  lemma SummaryOfRows(frame: Frame)
    requires !frame.IsEmpty() && SummaryStats(frame).Ok?
    ensures Summarises(frame, SummaryStats(frame).value)
  {
    var rows := frame.rows;
    DistinctIsUnique(Countries(rows));
    DistinctIsUnique(DisasterTypes(rows));
    var years := NonNull(StartYears(rows));
    YearBounds(rows);
    var s := SummaryStats(frame).value;
    assert s.years == Present(YearSpan(Min(years), Max(years)));
  }

  /** The least and greatest non-null year are years of some rows and bound every row's year. */
  lemma YearBounds(rows: seq<Row>)
    requires NonNull(StartYears(rows)) != []
    ensures var years := NonNull(StartYears(rows));
      Min(years) <= Max(years)
      && Some(Min(years)) in StartYears(rows) && Some(Max(years)) in StartYears(rows)
      && forall i :: 0 <= i < |rows| && rows[i].startYear.Some? ==> Min(years) <= rows[i].startYear.value <= Max(years)
  {
    var years := NonNull(StartYears(rows));
    forall i | 0 <= i < |rows| && rows[i].startYear.Some?
      ensures Min(years) <= rows[i].startYear.value <= Max(years)
    {
      assert StartYears(rows)[i] == rows[i].startYear;
    }
  }

  /** What the summary of a non-empty frame states about its rows. */
  predicate Summarises(frame: Frame, s: Stats) {
    var rows := frame.rows;
    s.message.Absent? && s.error.Absent?
    && s.totalEvents == Present(|rows|)
    && s.countries.Present? && IsUniqueOf(s.countries.val, Countries(rows))
    && s.disasterTypes.Present? && IsUniqueOf(s.disasterTypes.val, DisasterTypes(rows))
    && s.years.Present? && s.years.val.min <= s.years.val.max
    && Some(s.years.val.min) in StartYears(rows) && Some(s.years.val.max) in StartYears(rows)
    && (forall i :: 0 <= i < |rows| && rows[i].startYear.Some? ==>
          s.years.val.min <= rows[i].startYear.value <= s.years.val.max)
    && s.totalDeaths == Present(SumNonNull(Deaths(rows)))
    && s.totalAffected == Present(SumNonNull(Affected(rows)))
    && s.totalDamageUsd.Present?
    && (s.totalDamageUsd.val.Some? <==> "TOTAL_DAMAGE_000_USD" in frame.columns)
    && (s.totalDamageUsd.val.Some? ==> s.totalDamageUsd.val.value == 1000 * SumNonNull(Damage(rows)))
    && s.sampleEvents == Present(SampleEvents(rows))
  }

  /** `u` holds the distinct values of `xs`, each once, in order of first appearance (`unique()`). */
  predicate IsUniqueOf<T(==)>(u: seq<T>, xs: seq<T>) {
    (forall i :: 0 <= i < |xs| ==> xs[i] in u)
    && (forall i, j :: 0 <= i < j < |u| ==> u[i] != u[j])
    && FirstAppearanceOrder(xs, u)
  }

  /** Distinct computes `unique()`. */
  lemma DistinctIsUnique<T>(xs: seq<T>)
    ensures IsUniqueOf(Distinct(xs), xs)
  {
    DistinctOrder(xs);
  }
}
