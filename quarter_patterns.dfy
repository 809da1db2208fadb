/**
 * The three quarter/year regular expressions of the retrieval side, all
 * searched case-insensitively:
 *
 *   query text (hybrid search)   (Q[1-4])\s*(\d{4})
 *   chunk text (year/quarter)    (Q[1-4])\s*[,:\-]?\s*(\d{4})
 *   file name                    (Q[1-4])[-_]?(\d{4})
 *
 * Each pattern is given twice: as a declarative predicate saying which
 * offsets (quarter at i, year at j) the pattern accepts, and as a scanner
 * that follows the regex engine's greedy choices. Lemmas show that the scanner
 * finds a match exactly when the predicate admits one, and that the year
 * offset is then unique, so the groups do not depend on how the engine
 * backtracks. `\d` is read as an ASCII digit.
 */
module QuarterPatterns {
  import opened Wrappers
  import opened Text

  // ---------------------------------------------------------------------------
  // Pattern pieces
  // ---------------------------------------------------------------------------

  predicate IsQuarterDigit(c: char) { '1' <= c <= '4' }

  /** `Q[1-4]` under IGNORECASE matches the two characters at offset i. */
  predicate QuarterAt(s: string, i: int) {
    0 <= i && i + 2 <= |s| && (s[i] == 'Q' || s[i] == 'q') && IsQuarterDigit(s[i + 1])
  }

  /** `\d{4}` matches the four characters at offset j. */
  predicate DigitsAt(s: string, j: int) {
    0 <= j && j + 4 <= |s| && forall k :: j <= k < j + 4 ==> IsAsciiDigit(s[k])
  }

  /** `\s*` can consume exactly s[i..j]. */
  predicate SpacesBetween(s: string, i: int, j: int) {
    0 <= i <= j <= |s| && forall k :: i <= k < j ==> IsSpace(s[k])
  }

  /** The characters of `[,:\-]`. */
  predicate IsSeparator(c: char) { c == ',' || c == ':' || c == '-' }

  /** The characters of `[-_]`. */
  predicate IsFilenameSeparator(c: char) { c == '-' || c == '_' }

  /** The greedy `\s*` from offset i: the end of the run of whitespace that starts there. */
  function SkipSpaces(s: string, i: nat): (j: nat)
    requires i <= |s|
    decreases |s| - i
    ensures SpacesBetween(s, i, j)
    ensures j == |s| || !IsSpace(s[j])
  {
    if i < |s| && IsSpace(s[i]) then SkipSpaces(s, i + 1) else i
  }

  /** Any run of whitespace from i that stops before a non-space is the greedy one. */
  lemma {:induction false} SkipSpacesUnique(s: string, i: nat, j: int)
    requires i <= |s| && SpacesBetween(s, i, j) && j < |s| && !IsSpace(s[j])
    decreases j - i
    ensures j == SkipSpaces(s, i)
  {
    if i < j {
      SkipSpacesUnique(s, i + 1, j);
    }
  }

  /** Any run of whitespace from i ends no later than the greedy one. */
  lemma {:induction false} SpacesWithinSkip(s: string, i: nat, m: int)
    requires i <= |s| && SpacesBetween(s, i, m)
    decreases m - i
    ensures m <= SkipSpaces(s, i)
  {
    if i < m {
      SpacesWithinSkip(s, i + 1, m);
    }
  }

  lemma DigitIsNotSpace(c: char)
    requires IsAsciiDigit(c)
    ensures !IsSpace(c) && !IsSeparator(c) && !IsFilenameSeparator(c)
  {
  }

  /** The two groups of a match: the quarter text as matched and the year. */
  datatype Groups = Groups(quarter: string, year: string)

  /** A quarter as `Q[1-4]` matches it under IGNORECASE. */
  predicate IsMatchedQuarter(q: string) {
    |q| == 2 && (q[0] == 'Q' || q[0] == 'q') && IsQuarterDigit(q[1])
  }

  /** A quarter name of the form "Q1" .. "Q4". */
  predicate IsQuarterName(q: string) {
    |q| == 2 && q[0] == 'Q' && IsQuarterDigit(q[1])
  }

  /** A year as the patterns capture it: four ASCII digits. */
  predicate IsYearText(y: string) {
    |y| == 4 && forall k :: 0 <= k < 4 ==> IsAsciiDigit(y[k])
  }

  predicate IsMatchedGroups(g: Groups) {
    IsMatchedQuarter(g.quarter) && IsYearText(g.year)
  }

  /** The groups of a match with the quarter at i and the year at j. */
  function GroupsAt(s: string, i: int, j: int): (g: Groups)
    requires QuarterAt(s, i) && DigitsAt(s, j)
    ensures IsMatchedGroups(g)
  {
    Groups(s[i..i + 2], s[j..j + 4])
  }

  /** `.upper()` of a matched quarter: "Q1" .. "Q4". */
  function QuarterName(q: string): (r: string)
    requires IsMatchedQuarter(q)
    ensures IsQuarterName(r) && r[1] == q[1]
  {
    Upper(q)
  }

  // ---------------------------------------------------------------------------
  // (Q[1-4])\s*(\d{4})
  // ---------------------------------------------------------------------------

  /** The pattern accepts the quarter at i and the year at j. */
  ghost predicate QueryMatch(s: string, i: int, j: int) {
    QuarterAt(s, i) && SpacesBetween(s, i + 2, j) && DigitsAt(s, j)
  }

  /** The match the engine finds when it starts at offset i. */
  function QueryAt(s: string, i: nat): (r: Option<Groups>)
    ensures r.Some? ==> IsMatchedGroups(r.value)
    ensures r.Some? <==> exists j :: QueryMatch(s, i, j)
    ensures forall j :: QueryMatch(s, i, j) ==> r == Some(GroupsAt(s, i, j))
  {
    if !QuarterAt(s, i) then None
    else
      var j := SkipSpaces(s, i + 2);
      assert forall j' :: QueryMatch(s, i, j') ==> j' == j by {
        forall j' | QueryMatch(s, i, j') ensures j' == j {
          DigitIsNotSpace(s[j']);
          SkipSpacesUnique(s, i + 2, j');
        }
      }
      if DigitsAt(s, j) then
        assert QueryMatch(s, i, j);
        Some(GroupsAt(s, i, j))
      else None
  }

  // ---------------------------------------------------------------------------
  // (Q[1-4])\s*[,:\-]?\s*(\d{4})
  // ---------------------------------------------------------------------------

  /** `[,:\-]?` can consume exactly s[m..n]. */
  predicate OptionalSeparator(s: string, m: int, n: int) {
    n == m || (n == m + 1 && 0 <= m < |s| && IsSeparator(s[m]))
  }

  /** The pattern accepts the quarter at i and the year at j. */
  ghost predicate ChunkMatch(s: string, i: int, j: int) {
    QuarterAt(s, i) && DigitsAt(s, j)
    && exists m, n :: SpacesBetween(s, i + 2, m) && OptionalSeparator(s, m, n) && SpacesBetween(s, n, j)
  }

  /** The match the engine finds when it starts at offset i. */
  function ChunkAt(s: string, i: nat): (r: Option<Groups>)
    ensures r.Some? ==> IsMatchedGroups(r.value)
    ensures r.Some? <==> exists j :: ChunkMatch(s, i, j)
    ensures forall j :: ChunkMatch(s, i, j) ==> r == Some(GroupsAt(s, i, j))
  {
    if !QuarterAt(s, i) then None
    else
      var m := SkipSpaces(s, i + 2);
      var n := if m < |s| && IsSeparator(s[m]) then m + 1 else m;
      var j := SkipSpaces(s, n);
      assert forall j' :: ChunkMatch(s, i, j') ==> j' == j by {
        forall j' | ChunkMatch(s, i, j') ensures j' == j {
          ChunkMatchIsGreedy(s, i, j');
        }
      }
      if DigitsAt(s, j) then
        assert SpacesBetween(s, i + 2, m) && OptionalSeparator(s, m, n) && SpacesBetween(s, n, j);
        assert ChunkMatch(s, i, j);
        Some(GroupsAt(s, i, j))
      else None
  }

  /** Every accepted year offset is the one the greedy choices reach. */
  lemma ChunkMatchIsGreedy(s: string, i: nat, j: int)
    requires ChunkMatch(s, i, j)
    ensures var m := SkipSpaces(s, i + 2);
      var n := if m < |s| && IsSeparator(s[m]) then m + 1 else m;
      j == SkipSpaces(s, n)
  {
    var m := SkipSpaces(s, i + 2);
    var n := if m < |s| && IsSeparator(s[m]) then m + 1 else m;
    var m', n' :| SpacesBetween(s, i + 2, m') && OptionalSeparator(s, m', n') && SpacesBetween(s, n', j);
    DigitIsNotSpace(s[j]);
    SpacesWithinSkip(s, i + 2, m');
    if m' < m {
      // s[m'] is whitespace, so no separator was taken and the spaces run on to j.
      assert IsSpace(s[m']);
      assert n' == m';
      assert SpacesBetween(s, i + 2, j);
      SkipSpacesUnique(s, i + 2, j);
      SkipSpacesUnique(s, n, j);
    } else {
      if n' == m' {
        // The year follows the greedy spaces directly, so s[m] is a digit and no separator.
        assert j == m;
      }
      SkipSpacesUnique(s, n, j);
    }
  }

  // ---------------------------------------------------------------------------
  // (Q[1-4])[-_]?(\d{4})
  // ---------------------------------------------------------------------------

  /** The pattern accepts the quarter at i and the year at j. */
  ghost predicate FilenameMatch(s: string, i: int, j: int) {
    QuarterAt(s, i) && DigitsAt(s, j) && (j == i + 2 || (j == i + 3 && IsFilenameSeparator(s[i + 2])))
  }

  /** The match the engine finds when it starts at offset i. */
  function FilenameAt(s: string, i: nat): (r: Option<Groups>)
    ensures r.Some? ==> IsMatchedGroups(r.value)
    ensures r.Some? <==> exists j :: FilenameMatch(s, i, j)
    ensures forall j :: FilenameMatch(s, i, j) ==> r == Some(GroupsAt(s, i, j))
  {
    if !QuarterAt(s, i) then None
    else
      var j := if i + 2 < |s| && IsFilenameSeparator(s[i + 2]) then i + 3 else i + 2;
      assert forall j' :: FilenameMatch(s, i, j') ==> j' == j by {
        forall j' | FilenameMatch(s, i, j') ensures j' == j {
          DigitIsNotSpace(s[j']);
        }
      }
      if DigitsAt(s, j) then
        assert FilenameMatch(s, i, j);
        Some(GroupsAt(s, i, j))
      else None
  }

  // ---------------------------------------------------------------------------
  // re.search: the leftmost offset where the pattern matches
  // ---------------------------------------------------------------------------

  /** A search result: the offset the match starts at and its groups. */
  function FirstQueryMatch(s: string): (r: Option<(nat, Groups)>)
    ensures r.Some? ==> r.value.0 <= |s| && QueryAt(s, r.value.0) == Some(r.value.1)
    ensures r.Some? ==> forall i :: 0 <= i < r.value.0 ==> QueryAt(s, i).None?
    ensures r.None? ==> forall i, j :: !QueryMatch(s, i, j)
  {
    var at := (i: nat) => QueryAt(s, i);
    assert forall i: nat :: at(i) == QueryAt(s, i);
    var r := Leftmost(at, 0, |s|);
    assert r.None? ==> forall i, j :: !QueryMatch(s, i, j) by {
      if r.None? {
        forall i: nat, j | i <= |s| ensures !QueryMatch(s, i, j) {
          assert at(i).None?;
        }
      }
    }
    r
  }

  function FirstChunkMatch(s: string): (r: Option<(nat, Groups)>)
    ensures r.Some? ==> r.value.0 <= |s| && ChunkAt(s, r.value.0) == Some(r.value.1)
    ensures r.Some? ==> forall i :: 0 <= i < r.value.0 ==> ChunkAt(s, i).None?
    ensures r.None? ==> forall i, j :: !ChunkMatch(s, i, j)
  {
    var at := (i: nat) => ChunkAt(s, i);
    assert forall i: nat :: at(i) == ChunkAt(s, i);
    var r := Leftmost(at, 0, |s|);
    assert r.None? ==> forall i, j :: !ChunkMatch(s, i, j) by {
      if r.None? {
        forall i: nat, j | i <= |s| ensures !ChunkMatch(s, i, j) {
          assert at(i).None?;
        }
      }
    }
    r
  }

  function FirstFilenameMatch(s: string): (r: Option<(nat, Groups)>)
    ensures r.Some? ==> r.value.0 <= |s| && FilenameAt(s, r.value.0) == Some(r.value.1)
    ensures r.Some? ==> forall i :: 0 <= i < r.value.0 ==> FilenameAt(s, i).None?
    ensures r.None? ==> forall i, j :: !FilenameMatch(s, i, j)
  {
    var at := (i: nat) => FilenameAt(s, i);
    assert forall i: nat :: at(i) == FilenameAt(s, i);
    var r := Leftmost(at, 0, |s|);
    assert r.None? ==> forall i, j :: !FilenameMatch(s, i, j) by {
      if r.None? {
        forall i: nat, j | i <= |s| ensures !FilenameMatch(s, i, j) {
          assert at(i).None?;
        }
      }
    }
    r
  }

  // ---------------------------------------------------------------------------
  // How the three patterns relate
  // ---------------------------------------------------------------------------

  /** Whatever the query pattern accepts, the chunk pattern accepts, with the same groups. */
  lemma QueryMatchIsChunkMatch(s: string, i: int, j: int)
    requires QueryMatch(s, i, j)
    ensures ChunkMatch(s, i, j)
  {
    assert SpacesBetween(s, i + 2, j) && OptionalSeparator(s, j, j) && SpacesBetween(s, j, j);
  }

  /** A file-name match without '_' is a chunk match; without any separator it is a query match too. */
  lemma FilenameMatchIsChunkMatch(s: string, i: int, j: int)
    requires FilenameMatch(s, i, j) && (j == i + 2 || s[i + 2] == '-')
    ensures ChunkMatch(s, i, j)
    ensures j == i + 2 ==> QueryMatch(s, i, j)
  {
    assert SpacesBetween(s, i + 2, i + 2) && OptionalSeparator(s, i + 2, j) && SpacesBetween(s, j, j);
  }

  // ---------------------------------------------------------------------------
  // The search result is the leftmost accepted match
  // ---------------------------------------------------------------------------

  ghost predicate NoQueryMatchBefore(s: string, i: int) {
    forall k, l :: 0 <= k < i ==> !QueryMatch(s, k, l)
  }

  ghost predicate NoChunkMatchBefore(s: string, i: int) {
    forall k, l :: 0 <= k < i ==> !ChunkMatch(s, k, l)
  }

  ghost predicate NoFilenameMatchBefore(s: string, i: int) {
    forall k, l :: 0 <= k < i ==> !FilenameMatch(s, k, l)
  }

  lemma QuerySearchIsLeftmost(s: string, i: int, j: int)
    requires QueryMatch(s, i, j) && NoQueryMatchBefore(s, i)
    ensures FirstQueryMatch(s) == Some((i as nat, GroupsAt(s, i, j)))
  {
    assert QueryAt(s, i).Some?;
  }

  lemma ChunkSearchIsLeftmost(s: string, i: int, j: int)
    requires ChunkMatch(s, i, j) && NoChunkMatchBefore(s, i)
    ensures FirstChunkMatch(s) == Some((i as nat, GroupsAt(s, i, j)))
  {
    assert ChunkAt(s, i).Some?;
  }

  lemma FilenameSearchIsLeftmost(s: string, i: int, j: int)
    requires FilenameMatch(s, i, j) && NoFilenameMatchBefore(s, i)
    ensures FirstFilenameMatch(s) == Some((i as nat, GroupsAt(s, i, j)))
  {
    assert FilenameAt(s, i).Some?;
  }
}
