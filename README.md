# Disaster analysis pipeline — a Dafny model

This project models the core of a disaster-analysis assistant. It covers the
following parts:

- **The LangGraph pipeline** (`langraph.py`). A free-text prompt is parsed into
  a disaster type, a country and a year, then validated. The pipeline then:
  - retrieves matching EM-DAT rows from Snowflake and summarises them;
  - enriches the summary with averages, a year range and event patterns;
  - draws a dashboard and obtains a forecast;
  - hands everything to a report writer;
  - formats a final message.
- **The agents behind those steps.** These are:
  - the prompt parser (`inputparser_agent.py`);
  - the Snowflake retrieval agent (`dataretrieve.py`);
  - the statistics analyser (`statistical.py`);
  - the forecasting agent (`forecasting.py`);
  - the web-search agent (`websearch.py`).
- **The retrieval-augmented side.** The three `index_json_content` variants
  store JSON chunks in a Pinecone index, with quarter and year metadata taken
  from the chunk text, from the file name, or with no metadata at all. The
  hybrid search ranks, de-duplicates and filters chunks before it asks a
  language model for an answer.

## How it is modelled

- **One module per source file.** `Wrappers` (Option and Result), `Records`
  (the statistics dictionary), `Text` (Python string methods) and `Collections`
  (pandas column operations) are shared by the others.
- **The pipeline state** is a datatype with one field per key of `AgentState`.
  Each node is a function from state to state. A key that is absent and a key
  set to `None` are both `None`. This loses nothing, because no node writes
  `validation_error` as `None`.
- **Each stats dictionary** is a record with one `Field` (absent or present)
  per key any producer writes. This keeps key presence faithful for `d[key]`
  (a `KeyError`), `.get`, `{**a, **b}` and truthiness.
- **Exceptions** become `Err` values carrying the text `str(e)` would give. The
  nodes turn them into `validation_error` exactly as the `except` branches do.
- **Python set iteration order** is an input. It is the order in which
  `parse_disaster_prompt` visits `DISASTER_TYPES` and `COUNTRIES`, and it must
  list exactly the members of each set.
- **Regular expressions.** Each pattern is stated twice:
  - as a predicate saying which offsets it accepts;
  - as a scanner that makes the engine's greedy choices.

  Lemmas tie the two together and show that `re.search` returns the leftmost
  match.
- **Collaborators are parameters.** Snowflake, the Pinecone retrievers,
  DBSCAN, `great_circle`, the linear regression, the language models,
  DuckDuckGo and `json.loads` are functions passed in. The model states what
  the code does with their answers.
- **Imperative code stays imperative.** Loops that build lists become methods
  with loop invariants, proved equal to a specification function. The loops
  are those in `parse_disaster_prompt`, the de-duplication, the document
  loops, `get_current_news` and the section loop of `generate_forecast`.
  `extract_filters`, ten `if` statements in a row, is ten sequential updates. `DisasterStatsAnalyzer` is a class whose `df` and
  cluster column are fields; `_detect_clusters` updates them.

Behaviour the proofs bring out:

- **A failed query never reaches the pipeline as an error.** `retrieve_data`
  returns an empty fallback frame, and its summary is only the `"message"`
  sentinel. The analysis then stops with the `KeyError` `'total_deaths'`. If
  the summary itself raises, `analyze_statistics` replaces that error with
  "No statistics available for analysis", because the failed node set no
  summary.
- **The de-duplication keeps the lower score.** Before it, the results are
  sorted by descending score, so a chunk that both searches return keeps 0.3,
  not 0.7. Only the keys are used afterwards, so the answer is unaffected.
- **The POCS indexer keeps whitespace-only chunks.** It filters chunks with
  `if chunk`, while the other two variants use `chunk.strip()`. It also indexes
  nothing, rather than raising, when every chunk is the empty string.
- **No run succeeds: every run that reaches the report step fails there.**
  Runs that stop earlier end with their own error, such as `handle_error`'s
  input error or the analysis `KeyError`. At the report step,
  `generate_report` passes `forecast_data=` to `ReportSynthesisAgent`, whose
  constructor (`report.py`, line 15) has no such parameter, so the call fails
  with a `TypeError`. `Pipeline.RunAsWritten` models this
  call. `Pipeline.Run` models the intended call, which returns the report
  path (see Findings).

## Model

| member | source | states |
|---|---|---|
| Records.Merge | langraph.py:117 | `{**a, **b}`: merging empty stats on either side changes nothing, and the result is empty only when both are |
| Records.MessageOnly | dataretrieve.py:114-115 | the "no data" summary is a non-empty dict holding only the message |
| Records.ErrorOnly | statistical.py:43-44 | the "no statistics" result is a non-empty dict holding only the error |
| Text.Lower | inputparser_agent.py:33 | `str.lower()` keeps the length and lower-cases character by character |
| Text.LowerIsLowerCase | inputparser_agent.py:33 | a lower-cased string has no upper-case letter |
| Text.Upper | hybrid_search_pinecone_assign5.py:24 | `str.upper()` keeps the length and upper-cases character by character |
| Text.TitleCase | langraph.py:265-266 | `str.title()`: a cased character after a cased one is lower-cased; any other character is title-cased |
| Text.TitleCaseIdempotent | langraph.py:265-266 | title-casing a title-cased name changes nothing |
| Text.IndexOf | websearch.py:22 | `str.index`: found exactly when the substring occurs, and at its first occurrence |
| Text.Strip | inputparser_agent.py:33 | `str.strip()`: the result is a slice of the input with no whitespace at either end, and everything before and after it is whitespace |
| Text.StripEmptyIffBlank | websearch.py:17 | `s.strip()` is empty exactly when `s` is all whitespace |
| Text.NonBlankProperties | Pinecone_year_quarter_filtering.py:77-79 | the chunks kept by `if chunk.strip()` are exactly the non-blank ones, in order, and none is kept only when all are blank |
| Text.Split | websearch.py:16 | `str.split(sep)` gives at least one piece, and no piece contains the separator |
| Text.SplitCutsAtFirst | websearch.py:16 | `str.split(sep)` cuts from the left: one piece exactly when the separator does not occur, otherwise the first piece ends at the leftmost occurrence and the remaining pieces are the split of what follows it |
| Text.JoinSplit | websearch.py:16 | joining the pieces of a split with the separator gives back the string |
| Text.DigitsValueOfNatToString | dataretrieve.py:74 | the decimal text written into `LIMIT {limit}` reads back as the same number |
| Collections.NonNull | statistical.py:85 | `dropna()`: keeps every non-null value and nothing else, and is empty only when all values are null |
| Collections.NonNullCounts | statistical.py:85 | `dropna()` keeps each value exactly as many times as the column holds it |
| Collections.NonNullAppend | statistical.py:85 | `dropna()` of two pieces is the two results in order, and of one cell its value or nothing: the order is kept |
| Collections.NullsCountAsZero | dataretrieve.py:125-127 | a pandas `sum()` that skips nulls equals the sum with nulls read as 0 |
| Collections.Distinct | dataretrieve.py:119 | `unique()`: every value of the column, each once |
| Collections.DistinctOrder | dataretrieve.py:124 | `unique()` lists values in order of first appearance |
| Collections.ValueCounts | statistical.py:75 | `value_counts()`: each distinct value once, as many entries as distinct values, with its exact count (at least 1), counts non-increasing, no value missing |
| Collections.ValueCountsTotal | statistical.py:75 | the counts of `value_counts()` add up to the number of values |
| Collections.MostFrequent | statistical.py:80 | `value_counts().head(n).index`: min(n, number of distinct values) distinct values of the column, most frequent first, none left out more frequent than one kept |
| Collections.Take | statistical.py:80 | `head(n)` / `[:n]`: the first n elements, or all of them if there are fewer |
| Collections.Min | dataretrieve.py:121 | the column minimum is a value of the column and below every other |
| Collections.Max | dataretrieve.py:122 | the column maximum is a value of the column and above every other |
| InputParser.CollapseSpaces | inputparser_agent.py:33 | `re.sub(r'\s+', ' ', …)`: empty only for empty input, whitespace only as single spaces, no two in a row, lower case kept |
| InputParser.NormaliseShape | inputparser_agent.py:33 | the normalised prompt is lower-case, has only single spaces as whitespace, and neither starts nor ends with a space |
| InputParser.ParenthesisedTermNeedsWordAfter | inputparser_agent.py:40 | a vocabulary term ending in `)` matches `\b…\b` only when a word character follows it |
| InputParser.FirstMatch | inputparser_agent.py:39-48 | the first term of the iteration order that matches as a whole word; None exactly when no term matches |
| InputParser.FirstMatchAt | inputparser_agent.py:39-42 | the first matching term in iteration order is the one returned |
| InputParser.ExtractYear | inputparser_agent.py:51-53 | a year is returned only when it lies in 2000–2025 |
| InputParser.ExtractYearIsFirstMatch | inputparser_agent.py:51-53 | the year is the leftmost `\b20[0-2][0-9]\b`; if that one is outside 2000–2025 there is no year, even when a later one is valid |
| InputParser.FindTerm | inputparser_agent.py:39-48 | the loop with `break` returns the first whole-word match in iteration order |
| InputParser.ParseDisasterPrompt | inputparser_agent.py:28-55 | each returned term is in its vocabulary and occurs as a whole word; None exactly when no term does; the only matching term is the one returned; the year is valid |
| DataRetrieve.BuildQuery | dataretrieve.py:45-74 | the query and params built filter by filter equal the query text and the params dict for the arguments |
| DataRetrieve.QueryPlaceholders | dataretrieve.py:57-74 | the `%(name)s` placeholders of the query are exactly the keys of the params dict, in filter order |
| DataRetrieve.RetrieveQueryPlaceholders | dataretrieve.py:45-74 | the full query, SELECT head included, carries only the filter placeholders |
| DataRetrieve.QueryIgnoresValues | dataretrieve.py:58-72 | the query text depends only on which filters are truthy, never on their values |
| DataRetrieve.ParamsValues | dataretrieve.py:57-72 | each parameter is present exactly when its filter is truthy, with lower-cased text or the given year(s) |
| DataRetrieve.QueryShape | dataretrieve.py:45-74 | the query starts with the SELECT head and ends with `LIMIT {limit}` |
| DataRetrieve.Retrieve | dataretrieve.py:77-98 | a successful query gives exactly the returned rows under the selected columns; a failing query gives the empty frame with the four fallback columns |
| DataRetrieve.RetrieveData | dataretrieve.py:25-98 | retrieve_data returns the frame Retrieve describes |
| DataRetrieve.SampleEvents | dataretrieve.py:129 | `head()` of the projection: the first five rows (or all), each projected onto name, year and location |
| DataRetrieve.SummaryStats | dataretrieve.py:104-132 | an empty frame gives the "no data" message; it raises exactly when a needed column is missing or every START_YEAR is null, and the error is that of the first failing read of the dict literal: the KeyError of a missing COUNTRY or START_YEAR, then the NaN-to-int ValueError, then the KeyError of the first other missing column, then the not-in-index KeyError of the sample columns |
| DataRetrieve.SummaryOfRows | dataretrieve.py:117-129 | a successful summary counts the rows, lists distinct countries and types, spans the years, sums the columns skipping nulls, and samples the head |
| DataRetrieve.DistinctIsUnique | dataretrieve.py:119-124 | the distinct list holds every value once, in first-appearance order |
| Statistical.FrameOfSamples | statistical.py:15-37 | the frame is empty exactly when sample_events is missing or empty; otherwise it has one row per sample, with coordinates exactly when the location is non-null |
| Statistical.Divide | statistical.py:49-51 | division fails exactly on a zero divisor; otherwise the quotient times the divisor is the dividend |
| Statistical.CoreStatsOfNothing | statistical.py:43-44 | empty stats give the "No statistics available" error dict |
| Statistical.CoreStatsSucceeds | statistical.py:46-56 | the enrichment succeeds exactly when every key it reads is present, total_events is non-zero and total_damage_usd is not None |
| Statistical.CoreStatsAdds | statistical.py:46-56 | a success adds the three averages and the year range and changes no other key |
| Statistical.CoreStatsOfMessage | statistical.py:49 | a summary that is only the message raises `KeyError('total_deaths')` |
| Statistical.CoreStatsOfSummary | statistical.py:46-56 | on a real summary the enrichment succeeds exactly when the damage column was present, and the year range is never negative |
| Statistical.EventsPerYearCounts | statistical.py:73-75 | every non-null year is listed once, with the number of rows of that year as its count, most frequent first; the counts add up to the rows with a year |
| Statistical.StripAll | statistical.py:80 | `.str.strip()` strips every piece and keeps their number |
| Statistical.TokenIsPiece | statistical.py:79-80 | every location token is a stripped comma piece of some row's location |
| Statistical.CommonLocationsRanked | statistical.py:77-80 | min(n, number of distinct tokens) distinct tokens, most frequent first, none left out more frequent than one kept |
| Statistical.CommonLocationsAreTokens | statistical.py:77-80 | each common location is a stripped piece of some row's location |
| Statistical.TokenIsStripped | statistical.py:80 | a location token has no surrounding whitespace |
| Statistical.Members | statistical.py:96 | `coords[labels == l]` has every point labelled l, as many points as the label occurs |
| Statistical.MembersAppend | statistical.py:96 | the mask of two pieces is the two selections in order, and a single point is kept exactly when its label is l |
| Statistical.Mean | statistical.py:97 | the mean times the number of values is their sum |
| Statistical.ClusterOf | statistical.py:96-102 | a cluster entry counts the points with its label (at least one for a label that occurs), its centroid is the mean of their latitudes and longitudes, and its radius is the radius function's answer for them |
| Statistical.ClusterCentroid | statistical.py:97 | for a label that occurs, each centroid coordinate is that coordinate's sum over the label's points divided by the point count |
| Statistical.NonNoiseKeeps | statistical.py:94-95 | skipping label -1 keeps every other label, in ascending order |
| Statistical.ClusterLabels | statistical.py:94-95 | the labels iterated are the distinct labels other than noise, ascending |
| Statistical.Clusters | statistical.py:82-105 | two or fewer coordinates give the "Insufficient geospatial data" error |
| Statistical.ClustersFail | statistical.py:85-91 | the detection raises exactly when more than two rows have coordinates and some row lacks them, because the labels cannot be assigned to the frame |
| Statistical.ClustersAccount | statistical.py:93-103 | one entry per non-noise label, in ascending label order, each counting its points; together they count every point that is not noise |
| Statistical.PointTotalIsSumOfCounts | statistical.py:93-103 | the point counts of the list add up to the label counts |
| Statistical.EventPatternsShape | statistical.py:58-71 | an empty frame gives `{}`; otherwise exactly the three pattern keys, or the clustering error |
| Statistical.DisasterStatsAnalyzer.constructor | statistical.py:8-13 | the analyser keeps the stats and builds the frame from their samples |
| Statistical.DisasterStatsAnalyzer.CalculateCoreStats | statistical.py:39-56 | calculate_core_stats returns the enrichment CoreStats describes |
| Statistical.DisasterStatsAnalyzer.DetectClusters | statistical.py:82-105 | the cluster loop returns Clusters; the cluster column is set exactly when clusters were detected, and nothing else changes |
| Statistical.ClusterLoop | statistical.py:93-102 | the for loop over the label set gives ClusterList over the labels other than noise: one cluster per such label, in ascending order, noise skipped |
| Statistical.DisasterStatsAnalyzer.AnalyzeEventPatterns | statistical.py:58-71 | analyze_event_patterns returns EventPatterns and sets the cluster column only through detection |
| Forecasting.InferMetricIsColumn | forecasting.py:27-43 | the metric is always one of the eight columns |
| Forecasting.InferMetricPriority | forecasting.py:27-43 | each of the eight answers exactly when its keyword is found and no keyword checked before it is: death, injured, affected, homeless, then damage with insured, with reconstruction, alone; TOTAL_AFFECTED is the fallback |
| Forecasting.FiltersForIsSelected | forecasting.py:45-67 | the filters are the conditions whose keyword occurs in the lower-cased prompt |
| Forecasting.SelectedIsSubsequence | forecasting.py:45-67 | selected conditions keep the table's order |
| Forecasting.SelectedMembers | forecasting.py:45-67 | a condition is selected exactly when its keyword occurs |
| Forecasting.FilterConditionsDistinct | forecasting.py:47-66 | the ten conditions are pairwise different |
| Forecasting.FiltersForProperties | forecasting.py:45-67 | the filters are in table order, without duplicates, and each is present exactly when its keyword occurs |
| Forecasting.ExtractFilters | forecasting.py:45-67 | the ten checks in sequence build exactly FiltersFor(prompt) |
| Forecasting.CheckKeyword | forecasting.py:47-48 | one check appends its condition exactly when its keyword occurs, extending the filters of the checks before it by its own |
| Forecasting.WhereClauseShape | forecasting.py:80-82 | the clause starts with the two IS NOT NULL conditions and continues with " AND "-joined filters exactly when there are any |
| Forecasting.History | forecasting.py:94 | `dropna(subset=[metric])` keeps every row with a value and only those, and is empty only when no row has a value |
| Forecasting.HistoryAppend | forecasting.py:94 | `dropna` of two row blocks is the two results in order, and a single row is kept exactly when its value is not null |
| Forecasting.MaxYear | forecasting.py:105 | the latest year of the history |
| Forecasting.Projection | forecasting.py:105-108 | one row per future year, in order, with the regression's prediction for that year |
| Forecasting.SectionTasks | forecasting.py:163-169 | the five sections, named and ordered as in the dict |
| Forecasting.GenerateForecast | forecasting.py:70-179 | generate_forecast returns the output Forecast describes |
| Forecasting.ForecastNeedsFiveRows | forecasting.py:94-98 | fewer than five rows with a value give the "warning" output with "Not enough data for forecasting." and nothing else |
| Forecasting.RunSectionLoop | forecasting.py:171-172 | the for loop over the sections gives RunSections: each answer appended under its section name in order, the first failing call ending it with the error status |
| Forecasting.RunSectionsResult | forecasting.py:171-172 | the section loop keeps data and charts, and either fills every section in order or stops with an "error" status |
| Forecasting.ForecastSuccess | forecasting.py:100-174 | a forecast without a status came from a successful query with at least five rows with a value, and carries the metric, the filters, that query's history followed by five projected years, three chart paths and five analysis sections |
| Forecasting.ForecastYearsAfter | forecasting.py:105 | the five forecast years are consecutive and start right after the latest historical year |
| Forecasting.ForecastQueryFails | forecasting.py:176-179 | a failing query gives the "error" status with the exception's text as the error and no data, charts or analysis |
| Forecasting.ForecastStatus | forecasting.py:70-179 | a status is set exactly when an error is; it is "error" or "warning", and a warning always means too little data |
| QuarterPatterns.QueryAt | hybrid_search_pinecone_assign5.py:22 | `(Q[1-4])\s*(\d{4})` at an offset: matches exactly when the pattern admits it, with the groups the engine returns |
| QuarterPatterns.ChunkAt | Pinecone_year_quarter_filtering.py:16 | `(Q[1-4])\s*[,:\-]?\s*(\d{4})` at an offset, likewise |
| QuarterPatterns.ChunkMatchIsGreedy | Pinecone_year_quarter_filtering.py:16 | any admitted chunk match has the year where the greedy engine puts it, so the groups are unique |
| QuarterPatterns.FilenameAt | Pinecone_Assignment5.py:18 | `(Q[1-4])[-_]?(\d{4})` at an offset, likewise |
| QuarterPatterns.QueryMatchIsChunkMatch | Pinecone_year_quarter_filtering.py:16 | every query-pattern match is also a chunk-pattern match |
| QuarterPatterns.FilenameMatchIsChunkMatch | Pinecone_Assignment5.py:18 | a file-name match with `-` or no separator is a chunk match too |
| QuarterPatterns.QuerySearchIsLeftmost | hybrid_search_pinecone_assign5.py:22 | `re.search` returns the leftmost query match |
| QuarterPatterns.ChunkSearchIsLeftmost | Pinecone_year_quarter_filtering.py:16 | `re.search` returns the leftmost chunk match |
| QuarterPatterns.FilenameSearchIsLeftmost | Pinecone_Assignment5.py:18 | `re.search` returns the leftmost file-name match |
| HybridSearch.ExtractQuarter | hybrid_search_pinecone_assign5.py:20-25 | quarter and year are both present or both None; None exactly when nothing matches; otherwise an upper-case quarter name and four digits |
| HybridSearch.ExtractQuarterIsLeftmost | hybrid_search_pinecone_assign5.py:22-24 | the quarter and year come from the leftmost match, with the quarter upper-cased |
| HybridSearch.Ranked | hybrid_search_pinecone_assign5.py:53-54 | semantic hits weighted 0.7, followed by keyword hits weighted 0.3 |
| HybridSearch.SortByScore | hybrid_search_pinecone_assign5.py:58 | the sort gives non-increasing scores and a permutation of its input |
| HybridSearch.RankedIsSorted | hybrid_search_pinecone_assign5.py:58 | the stable sort leaves the ranked list unchanged, so contents keep the semantic-then-keyword order |
| HybridSearch.LastScores | hybrid_search_pinecone_assign5.py:57-59 | the dict has exactly the contents as keys |
| HybridSearch.Deduplicate | hybrid_search_pinecone_assign5.py:57-62 | the loop leaves the distinct contents in first-appearance order, each with the score written last |
| HybridSearch.LastScoreIsLastWritten | hybrid_search_pinecone_assign5.py:59 | each key's score is that of its last occurrence |
| HybridSearch.DuplicateKeepsLowerScore | hybrid_search_pinecone_assign5.py:58-59 | a chunk both searches return keeps 0.3, not the highest score |
| HybridSearch.TopResultsProperties | hybrid_search_pinecone_assign5.py:57-62 | the top results are the first top_k distinct hits in first-appearance order, and are empty only for no hits or top_k 0 |
| HybridSearch.TakeDistinct | hybrid_search_pinecone_assign5.py:62 | the first n distinct values: no duplicates, in order, at most n |
| HybridSearch.Mentioning | hybrid_search_pinecone_assign5.py:69-70 | exactly the chunks matching `{quarter}.*{year}`, in order |
| HybridSearch.PriorityFilterProperties | hybrid_search_pinecone_assign5.py:67-71 | without both a quarter and a year the list is unchanged; with both, the chunks mentioning them (a subsequence, exactly the mentioning ones) replace it unless none does; the filter never empties the list and keeps its order |
| HybridSearch.QueryPineconeWithGpt | hybrid_search_pinecone_assign5.py:28-91 | query_pinecone_with_gpt returns the answer Answer describes |
| HybridSearch.AnswerCases | hybrid_search_pinecone_assign5.py:76-91 | no results (only for no hits or top_k 0) gives the "couldn't find" text; otherwise the model answers from at most three distinct hits |
| Indexing.NormaliseIndexName | Pinecone_POCS.py:27 | the index name keeps its length, is lower-case and has `-` where `_` was |
| Indexing.NormaliseIndexNameIdempotent | Pinecone_POCS.py:27 | normalising twice changes nothing more |
| Indexing.ChunkItems | Pinecone_year_quarter_filtering.py:71-72 | missing or non-list "chunks" raise the "No valid chunks" ValueError |
| Indexing.ChunkText | Pinecone_year_quarter_filtering.py:74 | a string is its own text, a dict gives its "content" or "", anything else raises the `.get` AttributeError |
| Indexing.ChunkTexts | Pinecone_year_quarter_filtering.py:74 | the comprehension gives one text per chunk, in order, or the AttributeError of the first chunk that has no `.get` |
| Indexing.DocumentsOf | Pinecone_year_quarter_filtering.py:77-86 | one document per kept chunk, in order, with that chunk's metadata |
| Indexing.BuildDocuments | Pinecone_year_quarter_filtering.py:77-86 | the loop builds one document per non-blank chunk, in order |
| Indexing.LoadChunkTexts | Pinecone_year_quarter_filtering.py:37-74 | the checks run in order: API key, JSON, "chunks" list, then the chunk texts |
| Indexing.LoopIndex | Pinecone_year_quarter_filtering.py:35-96 | the shared body returns the error, None, or the store on the normalised index |
| Indexing.LoopIndexOutcome | Pinecone_year_quarter_filtering.py:77-90 | None exactly when every chunk is blank; otherwise one document per non-blank chunk, in order, with its metadata |
| YearQuarterIndexer.ExtractQuarterYear | Pinecone_year_quarter_filtering.py:14-19 | (year, quarter): both present or both None, None exactly when nothing matches |
| YearQuarterIndexer.ExtractQuarterYearIsLeftmost | Pinecone_year_quarter_filtering.py:16-18 | the pair comes from the leftmost match, with the quarter upper-cased |
| YearQuarterIndexer.ChunkMetadata | Pinecone_year_quarter_filtering.py:80-85 | exactly the keys year and quarter, taken from the chunk or "unknown" |
| YearQuarterIndexer.IndexJsonContent | Pinecone_year_quarter_filtering.py:22-96 | index_json_content returns the loop result with per-chunk metadata |
| YearQuarterIndexer.DocumentsCarryTheirOwnQuarter | Pinecone_year_quarter_filtering.py:77-86 | every indexed document is non-blank and carries the quarter and year of its own text |
| FilenameIndexer.ExtractQuarterYearFromFilename | Pinecone_Assignment5.py:14-21 | (year, quarter): both present or both None, None exactly when the name has no match |
| FilenameIndexer.FilenameQuarterYearIsLeftmost | Pinecone_Assignment5.py:18-20 | the pair comes from the leftmost match in the file name |
| FilenameIndexer.FileMetadata | Pinecone_Assignment5.py:72-82 | source, year and quarter: the file name or "in-memory", its quarter and year or "unknown" |
| FilenameIndexer.IndexJsonContent | Pinecone_Assignment5.py:24-90 | index_json_content returns the loop result with the file's metadata |
| FilenameIndexer.DocumentsShareFileMetadata | Pinecone_Assignment5.py:74-82 | every indexed document is non-blank and carries the same file metadata |
| FilenameIndexer.NoFilenameIsUnknown | Pinecone_Assignment5.py:72-80 | without a file name every document is "in-memory" with unknown year and quarter |
| PocsIndexer.NonEmptyProperties | Pinecone_POCS.py:85 | `if chunk` keeps exactly the non-empty chunks, in order |
| PocsIndexer.PocsIndex | Pinecone_POCS.py:27-94 | checks in order: the missing key, invalid JSON and the chunk-list and chunk-text errors pass through unchanged; no chunks raise "No content"; otherwise the store holds one in-memory document per non-empty chunk |
| PocsIndexer.NonBlankKeptByPocs | Pinecone_POCS.py:85 | every chunk the other variants keep, this one keeps too |
| PocsIndexer.EmptyStringsStillIndex | Pinecone_POCS.py:81-92 | a list of empty strings passes the "No content" check and returns a store with no documents |
| PocsIndexer.WhitespaceChunkKeptOnlyHere | Pinecone_POCS.py:85 | a whitespace-only chunk is indexed here but makes the loop variants return None |
| WebSearch.NewsQuery | websearch.py:11 | the news query is the disaster type, " in ", the country and " after:2024-01-01" |
| WebSearch.PreventionQuery | websearch.py:33-35 | the prevention query wraps the disaster type in its fixed prefix and " 2024" |
| WebSearch.SourceOf | websearch.py:20-22 | no source without "http"; otherwise the text from the first "http" up to the next space |
| WebSearch.TitleOf | websearch.py:25 | the text before the first " - " (no earlier occurrence), else the stripped first 60 characters |
| WebSearch.TopPieces | websearch.py:16 | exactly the first min(3, number of pieces) pieces of the split on blank lines |
| WebSearch.GetCurrentNews | websearch.py:9-29 | the loop returns one item per non-blank piece among the first three |
| WebSearch.GetPreventionUpdates | websearch.py:31-35 | the search answer to the prevention query, unchanged |
| WebSearch.NewsItemsProperties | websearch.py:16-28 | at most three items, each for a non-blank piece, in order, with no non-blank piece missed |
| WebSearch.SinglePiece | websearch.py:16-18 | an answer without a blank line gives one item, or none when it is blank |
| Pipeline.ParseInput | langraph.py:32-46 | the parser's three results; output and the four data fields reset; every other field kept |
| Pipeline.ValidateInput | langraph.py:48-55 | a falsy disaster type or country sets the missing-fields error and output; otherwise the state is unchanged |
| Pipeline.HandleError | langraph.py:57-62 | only the output changes, to "Input error: " and the error or "Unknown error" |
| Pipeline.Fail | langraph.py:83-88 | an exception sets validation_error and output and nothing else |
| Pipeline.RetrieveNode | langraph.py:64-88 | keeps the parsed fields and never clears an error; RetrieveOutcome states each branch |
| Pipeline.RetrieveOutcome | langraph.py:64-88 | with a summary, the frame, the summary and the success output are stored and the error is kept; a summary exception becomes "Data retrieval failed: " and its text |
| Pipeline.WithPatternKeys | langraph.py:104-110 | the three pattern keys are present: the analyser's values, or empty defaults |
| Pipeline.AnalyzeNode | langraph.py:90-125 | keeps the parsed fields and never clears an error |
| Pipeline.VisualizeNode | langraph.py:128-154 | keeps the parsed fields and never clears an error; VisualizeOutcome states each branch |
| Pipeline.VisualizeOutcome | langraph.py:128-154 | an earlier error passes unchanged; a falsy summary sets only the output and a None dashboard path; otherwise the dashboard's path is stored, or "Visualization failed: " and its text becomes the error |
| Pipeline.ForecastPrompt | langraph.py:169-171 | "Analyze {type} in {country}", plus " for year {year}" only for a truthy year |
| Pipeline.ForecastNode | langraph.py:156-194 | keeps the parsed fields and never clears an error |
| Pipeline.ReportArguments | langraph.py:218-238 | the names, year, dashboard path and forecast are passed on; the summary is passed with total_damage_usd set to 0 when absent; the analysis gains the event patterns |
| Pipeline.ReportNode | langraph.py:197-253 | an earlier error passes through; otherwise success needs all five inputs and yields a report path; ReportOutcome states each branch |
| Pipeline.ReportOutcome | langraph.py:240-253 | with all five inputs, the report agent's path and "Final report generated at " message are stored, or "Report generation failed: " and its text becomes the error; nothing else changes |
| Pipeline.ReportAsWrittenAlwaysFails | langraph.py:232-253 | with the constructor as written, every report attempt fails with the unexpected-keyword TypeError |
| Pipeline.FormatNode | langraph.py:255-283 | only the output changes; an error gives the failure text; it raises exactly when there is no error and a name is None |
| Pipeline.RouteAfterValidation | langraph.py:304-307 | handle_error exactly when validation_error is in the state |
| Pipeline.InputErrorPath | langraph.py:57-62 | an invalid prompt ends after handle_error, with the input-error output and no data |
| Pipeline.MainPathInputs | langraph.py:303-308 | the main path starts only with vocabulary terms that occur in the prompt as whole words |
| Pipeline.ErrorSkipsLaterNodes | langraph.py:128-130 | once an error is set, visualisation, forecast and report leave the state alone |
| Pipeline.RetrievalErrorOverwritten | langraph.py:64-96 | a failed retrieval is reported as "No statistics available for analysis" |
| Pipeline.AnalyzeOutcome | langraph.py:90-125 | no summary, a core-stats failure or a pattern failure gives its error; success stores the enrichment and the defaulted patterns, and merges them into the summary |
| Pipeline.AnalyzeMessageOnly | langraph.py:98-125 | a summary that is only the message fails the analysis with `KeyError('total_deaths')` |
| Pipeline.RetrievalFallback | langraph.py:64-81 | a failing query still succeeds here, with the fallback frame and the "no data" summary |
| Pipeline.ForecastOutcome | langraph.py:167-187 | a truthy forecast error becomes the node's error; otherwise the forecast is stored |
| Pipeline.ForecastWarningIsError | langraph.py:174-181 | too little data for forecasting stops the pipeline as an error |
| Pipeline.ReportRequiresData | langraph.py:201-214 | the insufficient-data error arises exactly when one of the five inputs is falsy |
| Pipeline.RunOutcome | langraph.py:300-315 | every run produces a state; with an error, the output is its input-error or failure text; otherwise it is the success message |
| Pipeline.MainPathKeepsNames | langraph.py:308-312 | the main path keeps the parsed names and year |
| Pipeline.RunAsWrittenNeverSucceeds | langraph.py:232-238 | every run as written ends with an error |
| Pipeline.RunWithoutErrorHasReport | langraph.py:240-246 | with the intended report call, every run without an error has all report inputs and a report path |
| Pipeline.RunReportsPath | langraph.py:232-246 | a validated prompt whose collaborators all succeed with non-empty data ends without an error and with the report agent's path for the built arguments; the same run as written ends with the TypeError |

## Left out

- Floating point: averages, damage in USD, centroids and the regression are exact reals or integers. `float(...)` and NaN propagation are not modelled.
- `pd.to_numeric(errors='coerce')` (dataretrieve.py:88-92): rows arrive already typed, with null for a missing value.
- The Snowflake connection and cursor are a function from query and params to rows or an error. `conn.close()` is not modelled.
- DBSCAN, `great_circle` and `_calculate_cluster_radius` are parameters. The model states how the cluster list is built from their answers.
- Statistical.CreateDataFrame: the TOTAL_DEATHS, NO_AFFECTED and TOTAL_DAMAGE_USD columns, always None in the frame, are not carried because no analysis reads them.
- Statistical.ClusterLabels: CPython iterates a set of small integers in ascending order. The model fixes this order and does not derive it.
- LinearRegression, `to_markdown`, matplotlib charts and `savefig` are parameters or left out. Only the chart paths are modelled.
- The language models (the forecast sections, the GPT answer) and DuckDuckGo are parameters.
- Pinecone index listing and creation, the embeddings and `add_documents` are left out. The model returns the documents a store would receive, with the normalised index name.
- `json.loads` is a parameter: the parsed dict, or None for a JSONDecodeError.
- Indexing.ChunkText: a dict entry whose "content" is present but null or not a string cannot be expressed. The source passes such a value on unconverted. The two loop variants then raise an AttributeError at `chunk.strip()`, and the POCS variant skips a null and hands any other value to `Document`. The model's dict entry holds a string or no "content" key.
- Text.LowerChar: `str.lower()` is modelled for ASCII and Latin-1 letters only. Other scripts are left unchanged.
- Text.TitleCase: `str.title()` is modelled for ASCII and Latin-1 letters, with five exceptions inside Latin-1. Python title-cases ß to "Ss", ÿ to Ÿ and µ to Μ, and treats µ, ª and º as cased letters. The model leaves ß, ÿ and µ unchanged and treats µ, ª and º as uncased, so a letter after ª or º starts a new word.
- InputParser.ParseDisasterPrompt: `\b` is decided by a word-character class covering ASCII and Latin-1 only.
- QuarterPatterns.QueryAt, QuarterPatterns.ChunkAt and QuarterPatterns.FilenameAt: `\d` is read as an ASCII digit, not every Unicode digit.
- The StateGraph builder and `compile()` are replaced by explicit composition of the nodes (Pipeline.RunWith). The `__main__` examples and `print` calls are left out.
- visualize.py is not part of this model: the dashboard is a parameter.
- report.py is not part of this model: the report writer is a parameter. Only its constructor's parameter list matters here (see Findings).
- frontend.py, main.py, con.py, Langchain_Chunking_JSON.py and RAG_Agent.py are not part of this model.

## Findings

| source | as written | input that shows it | evidently intended | confidence | as-written member | corrected member |
|---|---|---|---|---|---|---|
| langraph.py:232-238 | `ReportSynthesisAgent(..., forecast_data=...)`, but the constructor accepts only input_data, data_stats, analysis and dashboard_path | any prompt that reaches the report step with all its data, e.g. "flood in brazil 2015" with matching rows | the report agent accepts the forecast data it is passed, so a report path comes back | high; not executed | Pipeline.RunAsWrittenNeverSucceeds | Pipeline.RunReportsPath |
