/**
 * Hybrid retrieval over the report index: the quarter and year read from the
 * question, the semantic and keyword hits merged with weights 0.7 and 0.3,
 * sorted by weight (a stable sort, highest first), de-duplicated through an
 * insertion-ordered dict, cut to top_k, narrowed to the chunks that mention
 * the quarter and year, and joined (at most three) into the context of the
 * language-model prompt.
 *
 * The two searches and the language model are collaborators given in a
 * Services record.
 */
module HybridSearch {
  import opened Wrappers
  import opened Text
  import opened Collections
  import opened QuarterPatterns

  // ---------------------------------------------------------------------------
  // extract_quarter
  // ---------------------------------------------------------------------------

  /**
   * (quarter upper-cased, year) from the leftmost match of (Q[1-4])\s*(\d{4})
   * in the question, or (None, None).
   */
  function ExtractQuarter(query: string): (r: (Option<string>, Option<string>))
    ensures r.0.Some? <==> r.1.Some?
    ensures r.0.None? <==> forall i, j :: !QueryMatch(query, i, j)
    ensures r.0.Some? ==> IsQuarterName(r.0.value) && IsYearText(r.1.value)
  {
    match FirstQueryMatch(query)
    case None => (None, None)
    case Some((_, g)) => (Some(QuarterName(g.quarter)), Some(g.year))
  }

  /** The quarter and year are those of the leftmost match. */
  lemma ExtractQuarterIsLeftmost(query: string, i: int, j: int)
    requires QueryMatch(query, i, j) && NoQueryMatchBefore(query, i)
    ensures ExtractQuarter(query) == (Some(Upper(query[i..i + 2])), Some(query[j..j + 4]))
  {
    QuerySearchIsLeftmost(query, i, j);
  }

  // ---------------------------------------------------------------------------
  // Merge and sort
  // ---------------------------------------------------------------------------

  const SemanticWeight: real := 0.7
  const KeywordWeight: real := 0.3

  /** A hit: its page content and its weight. */
  type Scored = (string, real)

  /** The semantic hits weighted 0.7, followed by the keyword hits weighted 0.3. */
  function Ranked(semantic: seq<string>, keyword: seq<string>): (r: seq<Scored>)
    ensures |r| == |semantic| + |keyword|
    ensures forall k :: 0 <= k < |semantic| ==> r[k] == (semantic[k], SemanticWeight)
    ensures forall k :: 0 <= k < |keyword| ==> r[|semantic| + k] == (keyword[k], KeywordWeight)
  {
    seq(|semantic|, k requires 0 <= k < |semantic| => (semantic[k], SemanticWeight))
    + seq(|keyword|, k requires 0 <= k < |keyword| => (keyword[k], KeywordWeight))
  }

  /** The page contents of the hits, in order. */
  function Contents(xs: seq<Scored>): (r: seq<string>)
    ensures |r| == |xs| && forall k :: 0 <= k < |xs| ==> r[k] == xs[k].0
  {
    seq(|xs|, k requires 0 <= k < |xs| => xs[k].0)
  }

  predicate ScoresDescending(xs: seq<Scored>) {
    forall a, b :: 0 <= a < b < |xs| ==> xs[a].1 >= xs[b].1
  }

  /** One step of a stable insertion sort, highest first: `x` goes after every hit scoring at least as much. */
  function InsertByScore(ys: seq<Scored>, x: Scored): (r: seq<Scored>)
    ensures |r| == |ys| + 1
  {
    if ys == [] || ys[0].1 < x.1 then [x] + ys
    else [ys[0]] + InsertByScore(ys[1..], x)
  }

  /** The insertion adds `x` and nothing else. */
  lemma {:induction false} InsertByScoreElements(ys: seq<Scored>, x: Scored)
    ensures var r := InsertByScore(ys, x);
      (forall k :: 0 <= k < |r| ==> r[k] == x || r[k] in ys)
      && multiset(r) == multiset(ys) + multiset{x}
  {
    if ys != [] && ys[0].1 >= x.1 {
      var rest := InsertByScore(ys[1..], x);
      InsertByScoreElements(ys[1..], x);
      assert ys == [ys[0]] + ys[1..];
      var r := [ys[0]] + rest;
      assert InsertByScore(ys, x) == r;
      forall k | 0 <= k < |r| ensures r[k] == x || r[k] in ys {
        if k > 0 {
          assert r[k] == rest[k - 1];
        }
      }
    }
  }

  /** When nothing in `ys` scores less than `x`, the insertion appends it. */
  lemma {:induction false} InsertAfterAll(ys: seq<Scored>, x: Scored)
    requires forall k :: 0 <= k < |ys| ==> ys[k].1 >= x.1
    ensures InsertByScore(ys, x) == ys + [x]
  {
    if ys != [] {
      forall k | 0 <= k < |ys[1..]| ensures ys[1..][k].1 >= x.1 {
        assert ys[1..][k] == ys[k + 1];
      }
      InsertAfterAll(ys[1..], x);
      assert ys == [ys[0]] + ys[1..];
    }
  }

  lemma {:induction false} InsertKeepsDescending(ys: seq<Scored>, x: Scored)
    requires ScoresDescending(ys)
    ensures ScoresDescending(InsertByScore(ys, x))
  {
    if ys != [] && ys[0].1 >= x.1 {
      var rest := InsertByScore(ys[1..], x);
      InsertKeepsDescending(ys[1..], x);
      InsertByScoreElements(ys[1..], x);
      forall k | 0 <= k < |rest| ensures rest[k].1 <= ys[0].1 {
        if rest[k] != x {
          var m :| 0 <= m < |ys[1..]| && ys[1..][m] == rest[k];
          assert ys[m + 1] == rest[k];
        }
      }
    }
  }

  /** sorted(xs, key=score, reverse=True). */
  function SortByScore(xs: seq<Scored>): (r: seq<Scored>)
    ensures ScoresDescending(r)
    ensures multiset(r) == multiset(xs)
  {
    if xs == [] then []
    else
      var init := xs[..|xs| - 1];
      var x := xs[|xs| - 1];
      assert xs == init + [x];
      var sorted := SortByScore(init);
      InsertKeepsDescending(sorted, x);
      InsertByScoreElements(sorted, x);
      InsertByScore(sorted, x)
  }

  /** The sort is stable: hits already highest first stay where they are. */
  lemma {:induction false} SortKeepsDescending(xs: seq<Scored>)
    requires ScoresDescending(xs)
    ensures SortByScore(xs) == xs
  {
    if xs != [] {
      var init := xs[..|xs| - 1];
      var x := xs[|xs| - 1];
      assert xs == init + [x];
      SortKeepsDescending(init);
      forall k | 0 <= k < |init| ensures init[k].1 >= x.1 {
        assert init[k] == xs[k];
      }
      InsertAfterAll(init, x);
    }
  }

  /** The merged list is already highest first, so the sort leaves it as it is. */
  lemma RankedIsSorted(semantic: seq<string>, keyword: seq<string>)
    ensures SortByScore(Ranked(semantic, keyword)) == Ranked(semantic, keyword)
    ensures Contents(Ranked(semantic, keyword)) == semantic + keyword
  {
    var r := Ranked(semantic, keyword);
    forall a, b | 0 <= a < b < |r| ensures r[a].1 >= r[b].1 {
      if a >= |semantic| {
        assert r[a] == (keyword[a - |semantic|], KeywordWeight);
      }
      if b >= |semantic| {
        assert r[b] == (keyword[b - |semantic|], KeywordWeight);
      }
    }
    SortKeepsDescending(r);
  }

  // ---------------------------------------------------------------------------
  // The de-duplicating dict
  // ---------------------------------------------------------------------------

  /** The value the dict holds for each content after the loop: the score written last. */
  function LastScores(xs: seq<Scored>): (m: map<string, real>)
    ensures forall x :: x in m <==> x in Contents(xs)
  {
    if xs == [] then map[]
    else
      var init := xs[..|xs| - 1];
      ContentsSnoc(init, xs[|xs| - 1]);
      assert xs == init + [xs[|xs| - 1]];
      LastScores(init)[xs[|xs| - 1].0 := xs[|xs| - 1].1]
  }

  lemma ContentsSnoc(xs: seq<Scored>, x: Scored)
    ensures Contents(xs + [x]) == Contents(xs) + [x.0]
  {
  }

  lemma LastScoresSnoc(xs: seq<Scored>, x: Scored)
    ensures LastScores(xs + [x]) == LastScores(xs)[x.0 := x.1]
  {
    assert (xs + [x])[..|xs|] == xs;
  }

  /** What one more hit does to the dict: a new key goes last, the score is overwritten. */
  lemma DeduplicateStep(xs: seq<Scored>, x: Scored)
    ensures Distinct(Contents(xs + [x])) == Distinct(Contents(xs)) + (if x.0 in LastScores(xs) then [] else [x.0])
    ensures LastScores(xs + [x]) == LastScores(xs)[x.0 := x.1]
  {
    ContentsSnoc(xs, x);
    LastScoresSnoc(xs, x);
    DistinctSnoc(Contents(xs), x.0);
  }

  /** The loop over the sorted hits: the dict's keys in insertion order, and its values. */
  method Deduplicate(sorted: seq<Scored>) returns (keys: seq<string>, scores: map<string, real>)
    ensures keys == Distinct(Contents(sorted))
    ensures scores == LastScores(sorted)
  {
    keys := [];
    scores := map[];
    var i := 0;
    while i < |sorted|
      invariant 0 <= i <= |sorted|
      invariant keys == Distinct(Contents(sorted[..i]))
      invariant scores == LastScores(sorted[..i])
    {
      var (content, score) := sorted[i];
      assert Distinct(Contents(sorted[..i + 1])) == keys + (if content in scores then [] else [content])
          && LastScores(sorted[..i + 1]) == scores[content := score] by {
        assert sorted[..i + 1] == sorted[..i] + [(content, score)];
        DeduplicateStep(sorted[..i], (content, score));
      }
      if content !in scores {
        keys := keys + [content];
      }
      scores := scores[content := score];
      i := i + 1;
    }
    assert sorted[..i] == sorted;
  }

  /** The score kept for a content is that of its last hit in the sorted order. */
  lemma LastScoreIsLastWritten(xs: seq<Scored>, x: string)
    requires x in Contents(xs)
    ensures exists i :: 0 <= i < |xs| && xs[i] == (x, LastScores(xs)[x]) && forall j :: i < j < |xs| ==> xs[j].0 != x
  {
    var i := LastWrite(xs, x);
  }

  /** The position of the last hit of `x`, which holds the score the dict keeps. */
  lemma {:induction false} LastWrite(xs: seq<Scored>, x: string) returns (i: nat)
    requires x in Contents(xs)
    ensures i < |xs| && xs[i] == (x, LastScores(xs)[x]) && forall j :: i < j < |xs| ==> xs[j].0 != x
  {
    var n := |xs| - 1;
    var init := xs[..n];
    assert xs == init + [xs[n]];
    LastScoresSnoc(init, xs[n]);
    if xs[n].0 != x {
      ContentsSnoc(init, xs[n]);
      i := LastWrite(init, x);
      assert xs[i] == init[i];
      assert forall j :: i < j < n ==> xs[j] == init[j];
    } else {
      i := n;
    }
  }

  /**
   * A content found by both searches keeps the keyword weight 0.3, the lower
   * one, because the keyword hit is written after it in the sorted pass; one
   * found only semantically keeps 0.7.
   */
  lemma DuplicateKeepsLowerScore(semantic: seq<string>, keyword: seq<string>, x: string)
    requires x in semantic + keyword
    ensures var scores := LastScores(SortByScore(Ranked(semantic, keyword)));
      x in scores && scores[x] == (if x in keyword then KeywordWeight else SemanticWeight)
  {
    RankedIsSorted(semantic, keyword);
    RankedLastScore(semantic, keyword, x);
  }

  /** The same, stated on the merged list before the sort. */
  lemma RankedLastScore(semantic: seq<string>, keyword: seq<string>, x: string)
    requires x in semantic + keyword
    ensures var scores := LastScores(Ranked(semantic, keyword));
      x in scores && scores[x] == (if x in keyword then KeywordWeight else SemanticWeight)
  {
    var r := Ranked(semantic, keyword);
    if x in keyword {
      var t :| 0 <= t < |keyword| && keyword[t] == x;
      KeywordHitLast(semantic, keyword, t);
    } else {
      var t :| 0 <= t < |semantic| && semantic[t] == x;
      SemanticOnlyHitLast(semantic, keyword, t);
    }
  }

  /** A keyword hit's content keeps the keyword weight. */
  lemma KeywordHitLast(semantic: seq<string>, keyword: seq<string>, t: nat)
    requires t < |keyword|
    ensures var scores := LastScores(Ranked(semantic, keyword));
      keyword[t] in scores && scores[keyword[t]] == KeywordWeight
  {
    var r := Ranked(semantic, keyword);
    var n := |semantic|;
    assert r[n + t] == (keyword[t], KeywordWeight);
    forall j | n + t <= j < |r| ensures r[j].1 == KeywordWeight {
      assert r[n + (j - n)] == (keyword[j - n], KeywordWeight);
    }
    LastScoreFromTail(r, keyword[t], n + t, KeywordWeight);
  }

  /** A content only the semantic search found keeps the semantic weight. */
  lemma SemanticOnlyHitLast(semantic: seq<string>, keyword: seq<string>, t: nat)
    requires t < |semantic| && semantic[t] !in keyword
    ensures var scores := LastScores(Ranked(semantic, keyword));
      semantic[t] in scores && scores[semantic[t]] == SemanticWeight
  {
    var r := Ranked(semantic, keyword);
    var n := |semantic|;
    var x := semantic[t];
    forall j | t <= j < |r| ensures r[j].0 == x ==> r[j].1 == SemanticWeight {
      if j < n {
        assert r[j] == (semantic[j], SemanticWeight);
      } else {
        RankedTail(semantic, keyword, j);
      }
    }
    LastScoreFromTail(r, x, t, SemanticWeight);
  }

  /** When every hit of `x` from position p on has weight w, the dict keeps w for x. */
  lemma LastScoreFromTail(xs: seq<Scored>, x: string, p: nat, w: real)
    requires p < |xs| && xs[p].0 == x
    requires forall j :: p <= j < |xs| && xs[j].0 == x ==> xs[j].1 == w
    ensures x in LastScores(xs) && LastScores(xs)[x] == w
  {
    assert Contents(xs)[p] == x;
    var i := LastWrite(xs, x);
    assert p <= i;
  }

  /** Every hit after the semantic ones is a keyword hit. */
  lemma RankedTail(semantic: seq<string>, keyword: seq<string>, j: nat)
    requires |semantic| <= j < |semantic| + |keyword|
    ensures Ranked(semantic, keyword)[j].0 in keyword
  {
    var k := j - |semantic|;
    assert Ranked(semantic, keyword)[|semantic| + k] == (keyword[k], KeywordWeight);
  }

  /** final_results before the quarter filter: the first top_k keys of the dict. */
  function TopResults(semantic: seq<string>, keyword: seq<string>, topK: nat): seq<string> {
    Take(Distinct(Contents(SortByScore(Ranked(semantic, keyword)))), topK)
  }

  /**
   * The top results are the first top_k distinct contents of the semantic hits
   * followed by the keyword hits, in order of first appearance: no duplicates,
   * at most top_k of them, none only when there is no hit or top_k is 0.
   */
  lemma TopResultsProperties(semantic: seq<string>, keyword: seq<string>, topK: nat)
    ensures var r := TopResults(semantic, keyword, topK);
      r == Take(Distinct(semantic + keyword), topK)
      && |r| <= topK
      && (forall a, b :: 0 <= a < b < |r| ==> r[a] != r[b])
      && FirstAppearanceOrder(semantic + keyword, r)
      && (r == [] <==> topK == 0 || semantic + keyword == [])
  {
    RankedIsSorted(semantic, keyword);
    TakeDistinct(semantic + keyword, topK);
  }

  /** The first n distinct values of a sequence. */
  lemma TakeDistinct(h: seq<string>, n: nat)
    ensures var r := Take(Distinct(h), n);
      |r| <= n
      && (forall a, b :: 0 <= a < b < |r| ==> r[a] != r[b])
      && FirstAppearanceOrder(h, r)
      && (r == [] <==> n == 0 || h == [])
  {
    var d := Distinct(h);
    DistinctOrder(h);
    if h != [] {
      assert h[0] in d;
    }
  }

  // ---------------------------------------------------------------------------
  // The quarter-year filter
  // ---------------------------------------------------------------------------

  /** `t` occurs in `s` at offset `i` under re.IGNORECASE. */
  predicate OccursAtIgnoringCase(s: string, t: string, i: int) {
    0 <= i && i + |t| <= |s| && forall k :: 0 <= k < |t| ==> SameIgnoringCase(s[i + k], t[k])
  }

  /** `.` matches every character but a newline. */
  predicate NoNewline(s: string, i: int, j: int) {
    0 <= i <= j <= |s| && forall k :: i <= k < j ==> s[k] != '\n'
  }

  /**
   * re.search(rf"{quarter}.*{year}", doc, re.IGNORECASE) for a quarter and a
   * year that hold no metacharacters: the quarter, then anything on the same
   * line, then the year.
   */
  predicate MentionsQuarterYear(doc: string, quarter: string, year: string) {
    exists i | 0 <= i <= |doc| :: OccursAtIgnoringCase(doc, quarter, i)
      && exists j | i + |quarter| <= j <= |doc| :: NoNewline(doc, i + |quarter|, j) && OccursAtIgnoringCase(doc, year, j)
  }

  /** [doc for doc in docs if pattern.search(doc)]. */
  function Mentioning(docs: seq<string>, quarter: string, year: string): (r: seq<string>)
    ensures IsSubsequence(r, docs)
    ensures forall x :: x in r <==> x in docs && MentionsQuarterYear(x, quarter, year)
  {
    if docs == [] then []
    else
      var rest := Mentioning(docs[1..], quarter, year);
      SubsequenceElements(rest, docs[1..]);
      assert forall x :: x in docs <==> x == docs[0] || x in docs[1..];
      if MentionsQuarterYear(docs[0], quarter, year) then [docs[0]] + rest else rest
  }

  predicate Truthy(s: Option<string>) {
    s.Some? && s.value != ""
  }

  /** The chunks that mention the quarter and year when both are known and some chunk does; otherwise the list as it is. */
  function PriorityFilter(results: seq<string>, quarter: Option<string>, year: Option<string>): seq<string> {
    if Truthy(quarter) && Truthy(year) then
      var priority := Mentioning(results, quarter.value, year.value);
      if priority != [] then priority else results
    else results
  }

  /**
   * Without both a quarter and a year the list is kept as it is; with both,
   * the chunks that mention them replace it unless there are none. The filter
   * never empties a list, keeps the order, and only narrows to mentioning chunks.
   */
  lemma PriorityFilterProperties(results: seq<string>, quarter: Option<string>, year: Option<string>)
    ensures !(Truthy(quarter) && Truthy(year)) ==> PriorityFilter(results, quarter, year) == results
    ensures Truthy(quarter) && Truthy(year) ==>
      var m := Mentioning(results, quarter.value, year.value);
      PriorityFilter(results, quarter, year) == if m != [] then m else results
    ensures var r := PriorityFilter(results, quarter, year);
      (r == [] <==> results == [])
      && IsSubsequence(r, results)
      && (r != results ==>
            Truthy(quarter) && Truthy(year) && forall x :: x in r <==> x in results && MentionsQuarterYear(x, quarter.value, year.value))
  {
    if results != [] {
      IsSubsequenceOfItself(results);
    } else {
      assert IsSubsequence(results, results);
    }
  }

  lemma {:induction false} IsSubsequenceOfItself<T>(xs: seq<T>)
    ensures IsSubsequence(xs, xs)
  {
    if xs != [] {
      IsSubsequenceOfItself(xs[1..]);
    }
  }

  // ---------------------------------------------------------------------------
  // query_pinecone_with_gpt
  // ---------------------------------------------------------------------------

  /** The two searches (each asked for top_k hits) and the chat completion. */
  datatype Services = Services(
    semantic: (string, nat) -> seq<string>,
    keyword: (string, nat) -> seq<string>,
    complete: (string, string) -> string)

  /** Python's f-string rendering of an optional string. */
  function Show(x: Option<string>): string {
    if x.Some? then x.value else "None"
  }

  function NotFound(quarter: Option<string>, year: Option<string>): string {
    "I couldn't find relevant information for " + Show(quarter) + " " + Show(year) + "."
  }

  const SystemPrompt: string := "You are an AI financial assistant that answers questions based on reports."

  function UserPrompt(context: string, query: string): string {
    "Context:\n" + context + "\n\nQuestion: " + query + "\nAnswer based on the above context:"
  }

  /** The context: the first three chunks (or fewer) joined by blank lines. */
  function Context(results: seq<string>): string {
    Join(Take(results, 3), "\n\n")
  }

  /** The chunks the answer is drawn from. */
  function FinalResults(query: string, topK: nat, sv: Services): seq<string> {
    var (quarter, year) := ExtractQuarter(query);
    PriorityFilter(TopResults(sv.semantic(query, topK), sv.keyword(query, topK), topK), quarter, year)
  }

  /** What query_pinecone_with_gpt returns. */
  function Answer(query: string, topK: nat, sv: Services): string {
    var (quarter, year) := ExtractQuarter(query);
    var results := FinalResults(query, topK, sv);
    if results == [] then NotFound(quarter, year)
    else sv.complete(SystemPrompt, UserPrompt(Context(results), query))
  }

  method QueryPineconeWithGpt(query: string, topK: nat, sv: Services) returns (answer: string)
    ensures answer == Answer(query, topK, sv)
  {
    var (quarter, year) := ExtractQuarter(query);
    var semanticResults := sv.semantic(query, topK);
    var keywordResults := sv.keyword(query, topK);
    var ranked := Ranked(semanticResults, keywordResults);
    var keys, scores := Deduplicate(SortByScore(ranked));
    var finalResults := Take(keys, topK);
    if Truthy(quarter) && Truthy(year) {
      var priority := Mentioning(finalResults, quarter.value, year.value);
      finalResults := if priority != [] then priority else finalResults;
    }
    if finalResults == [] {
      return NotFound(quarter, year);
    }
    var topChunks := Join(Take(finalResults, 3), "\n\n");
    answer := sv.complete(SystemPrompt, UserPrompt(topChunks, query));
  }

  /**
   * The not-found text comes back exactly when neither search returned a hit
   * or top_k is 0; otherwise the model is asked about the context of at most
   * three distinct chunks, all among the hits.
   */
  lemma AnswerCases(query: string, topK: nat, sv: Services)
    ensures var hits := sv.semantic(query, topK) + sv.keyword(query, topK);
      var results := FinalResults(query, topK, sv);
      var (quarter, year) := ExtractQuarter(query);
      (results == [] <==> topK == 0 || hits == [])
      && (results == [] ==> Answer(query, topK, sv) == NotFound(quarter, year))
      && (results != [] ==> Answer(query, topK, sv) == sv.complete(SystemPrompt, UserPrompt(Context(results), query)))
      && |results| <= topK
      && (forall a, b :: 0 <= a < b < |results| ==> results[a] != results[b])
      && (forall x :: x in results ==> x in hits)
  {
    var semantic, keyword := sv.semantic(query, topK), sv.keyword(query, topK);
    var (quarter, year) := ExtractQuarter(query);
    var top := TopResults(semantic, keyword, topK);
    TopResultsProperties(semantic, keyword, topK);
    PriorityFilterProperties(top, quarter, year);
    var results := PriorityFilter(top, quarter, year);
    assert FinalResults(query, topK, sv) == results;
    SubsequenceElements(results, top);
    SubsequenceDistinct(results, top);
    SubsequenceLength(results, top);
  }
}
