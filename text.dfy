/**
 * String primitives shared by the model: Python's notion of whitespace, of word
 * characters and of lower/upper case (as far as the model follows them), the
 * str methods the source calls (strip, split, join, `in`, index) and a
 * leftmost-match search used for the `re.search` calls.
 */
module Text {
  import opened Wrappers
  import opened Collections

  // ---------------------------------------------------------------------------
  // Character classes
  // ---------------------------------------------------------------------------

  /** Python's str.isspace(), which is also what `\s` matches in a str pattern. */
  predicate IsSpace(c: char) {
    c == ' ' || ('\t' <= c <= '\r') || ('\U{1C}' <= c <= '\U{1F}') || c == '\U{85}' || c == '\U{A0}'
    || c == '\U{1680}' || ('\U{2000}' <= c <= '\U{200A}') || c == '\U{2028}' || c == '\U{2029}'
    || c == '\U{202F}' || c == '\U{205F}' || c == '\U{3000}'
  }

  predicate IsAsciiDigit(c: char) { '0' <= c <= '9' }

  predicate IsAsciiUpper(c: char) { 'A' <= c <= 'Z' }

  predicate IsAsciiLower(c: char) { 'a' <= c <= 'z' }

  /** Upper-case letters of Latin-1 (À..Þ without ×). */
  predicate IsLatin1Upper(c: char) { '\U{C0}' <= c <= '\U{DE}' && c != '\U{D7}' }

  /** Letters that the model lower-cases. */
  predicate IsUpper(c: char) { IsAsciiUpper(c) || IsLatin1Upper(c) }

  /**
   * What `\w` matches in a str pattern, restricted to Latin-1: ASCII letters
   * and digits, '_', and the Latin-1 letters and numeric characters.
   */
  predicate IsWordChar(c: char) {
    IsAsciiUpper(c) || IsAsciiLower(c) || IsAsciiDigit(c) || c == '_'
    || c == '\U{AA}' || c == '\U{B2}' || c == '\U{B3}' || c == '\U{B5}' || c == '\U{B9}' || c == '\U{BA}'
    || ('\U{BC}' <= c <= '\U{BE}') || ('\U{C0}' <= c <= '\U{FF}' && c != '\U{D7}' && c != '\U{F7}')
  }

  /** str.lower() on one character. */
  function LowerChar(c: char): (r: char)
    ensures !IsUpper(r)
    ensures IsWordChar(r) == IsWordChar(c) && IsSpace(r) == IsSpace(c)
    ensures !IsUpper(c) ==> r == c
  {
    if IsUpper(c) then (c as int + 32) as char else c
  }

  /** str.upper() on one ASCII character. */
  function UpperChar(c: char): (r: char)
    ensures !IsAsciiLower(r)
    ensures !IsAsciiLower(c) ==> r == c
  {
    if IsAsciiLower(c) then (c as int - 32) as char else c
  }

  function Lower(s: string): (r: string)
    ensures |r| == |s|
    ensures forall i :: 0 <= i < |s| ==> r[i] == LowerChar(s[i])
  {
    seq(|s|, i requires 0 <= i < |s| => LowerChar(s[i]))
  }

  function Upper(s: string): (r: string)
    ensures |r| == |s|
    ensures forall i :: 0 <= i < |s| ==> r[i] == UpperChar(s[i])
  {
    seq(|s|, i requires 0 <= i < |s| => UpperChar(s[i]))
  }

  /** The text contains no character that Lower would change. */
  predicate IsLowerCase(s: string) {
    forall i :: 0 <= i < |s| ==> !IsUpper(s[i])
  }

  lemma LowerIsLowerCase(s: string)
    ensures IsLowerCase(Lower(s))
  {
    var r := Lower(s);
    forall i | 0 <= i < |r| ensures !IsUpper(r[i]) {
      assert r[i] == LowerChar(s[i]);
    }
  }

  /** Case-insensitive equality of two characters, as `re.IGNORECASE` compares ASCII letters. */
  predicate SameIgnoringCase(a: char, b: char) {
    LowerChar(a) == LowerChar(b)
  }

  /** The letters str.title() treats as cased, as far as the model follows it: ASCII and Latin-1 letters. */
  predicate IsCased(c: char) {
    IsAsciiUpper(c) || IsAsciiLower(c) || ('\U{C0}' <= c <= '\U{FF}' && c != '\U{D7}' && c != '\U{F7}')
  }

  /** The first letter of a word under str.title(): ASCII and Latin-1 lower-case letters made upper-case. */
  function TitleChar(c: char): (r: char)
    ensures IsCased(r) == IsCased(c)
    ensures !IsAsciiLower(r)
  {
    if IsAsciiLower(c) || ('\U{E0}' <= c <= '\U{FE}' && c != '\U{F7}') then (c as int - 32) as char else c
  }

  /**
   * str.title(): a cased character that follows a cased character is
   * lower-cased, any other character starts a word and is title-cased.
   */
  function TitleCase(s: string): (r: string)
    ensures |r| == |s|
    ensures forall i :: 0 <= i < |s| ==>
      r[i] == (if i > 0 && IsCased(s[i - 1]) then LowerChar(s[i]) else TitleChar(s[i]))
  {
    seq(|s|, i requires 0 <= i < |s| => if i > 0 && IsCased(s[i - 1]) then LowerChar(s[i]) else TitleChar(s[i]))
  }

  lemma LowerKeepsCased(c: char)
    ensures IsCased(LowerChar(c)) == IsCased(c)
  {
  }

  /** Title-casing twice is title-casing once: cased-ness, hence every word start, is kept. */
  lemma TitleCaseIdempotent(s: string)
    ensures TitleCase(TitleCase(s)) == TitleCase(s)
  {
    var t := TitleCase(s);
    forall i | 0 <= i < |s| ensures TitleCase(t)[i] == t[i] {
      if i > 0 {
        LowerKeepsCased(s[i - 1]);
        assert IsCased(t[i - 1]) == IsCased(s[i - 1]);
      }
      LowerKeepsCased(s[i]);
    }
  }

  // ---------------------------------------------------------------------------
  // Substrings
  // ---------------------------------------------------------------------------

  /** `t` occurs in `s` at offset `i`. */
  predicate OccursAt(s: string, t: string, i: int) {
    0 <= i && i + |t| <= |s| && s[i..i + |t|] == t
  }

  /** Python's `t in s`. */
  predicate Contains(s: string, t: string) {
    exists i | 0 <= i <= |s| :: OccursAt(s, t, i)
  }

  /** The first offset at or after `from` where `t` occurs in `s`. */
  function IndexFrom(s: string, t: string, from: nat): (r: Option<nat>)
    decreases |s| - from
    ensures r.Some? ==> from <= r.value && OccursAt(s, t, r.value)
    ensures r.Some? ==> forall j :: from <= j < r.value ==> !OccursAt(s, t, j)
    ensures r.None? ==> forall j :: from <= j ==> !OccursAt(s, t, j)
  {
    if from + |t| > |s| then None
    else if s[from..from + |t|] == t then Some(from)
    else IndexFrom(s, t, from + 1)
  }

  /** str.find / str.index: the first offset of `t` in `s`, or None. */
  function IndexOf(s: string, t: string): (r: Option<nat>)
    ensures r.Some? <==> Contains(s, t)
    ensures r.Some? ==> OccursAt(s, t, r.value) && forall j :: 0 <= j < r.value ==> !OccursAt(s, t, j)
  {
    IndexFrom(s, t, 0)
  }

  lemma OccursInPrefix(s: string, t: string, n: nat, i: int)
    requires n <= |s| && OccursAt(s[..n], t, i)
    ensures OccursAt(s, t, i)
  {
    assert s[..n][i..i + |t|] == s[i..i + |t|];
  }

  lemma OccursInSuffix(s: string, t: string, n: nat, i: int)
    requires n <= |s| && OccursAt(s[n..], t, i)
    ensures OccursAt(s, t, n + i)
  {
    assert s[n..][i..i + |t|] == s[n + i..n + i + |t|];
  }

  /** Concatenation facts, stated for any strings so that no literal needs unfolding. */
  lemma AppendEmpty(a: string)
    ensures a + "" == a
  {
  }

  lemma AppendAssoc(a: string, b: string, c: string)
    ensures a + b + c == a + (b + c)
  {
  }

  lemma AppendParts(a: string, b: string)
    ensures |a + b| == |a| + |b| && (a + b)[..|a|] == a && (a + b)[|a|..] == b
  {
  }

  // ---------------------------------------------------------------------------
  // strip, split, join
  // ---------------------------------------------------------------------------

  function StripLeft(s: string): (r: string)
    ensures |r| <= |s| && r == s[|s| - |r|..]
    ensures r == [] || !IsSpace(r[0])
    ensures forall i :: 0 <= i < |s| - |r| ==> IsSpace(s[i])
  {
    if |s| > 0 && IsSpace(s[0]) then StripLeft(s[1..]) else s
  }

  function StripRight(s: string): (r: string)
    ensures |r| <= |s| && r == s[..|r|]
    ensures r == [] || !IsSpace(r[|r| - 1])
    ensures forall i :: |r| <= i < |s| ==> IsSpace(s[i])
  {
    if |s| > 0 && IsSpace(s[|s| - 1]) then StripRight(s[..|s| - 1]) else s
  }

  /** str.strip(): drop leading and trailing whitespace, and nothing else. */
  function Strip(s: string): (r: string)
    ensures r == [] || (!IsSpace(r[0]) && !IsSpace(r[|r| - 1]))
    ensures OccursAt(s, r, |s| - |StripLeft(s)|)
    ensures var k := |s| - |StripLeft(s)|;
      k + |r| <= |s| && IsBlank(s[..k]) && IsBlank(s[k + |r|..])
  {
    var l := StripLeft(s);
    var r := StripRight(l);
    SliceOfSuffix(s, |s| - |l|, |r|);
    StripLeftDrops(s, l);
    StripRightDrops(l, r);
    BlankTail(s, l, |r|);
    r
  }

  lemma StripLeftDrops(s: string, l: string)
    requires l == StripLeft(s)
    ensures IsBlank(s[..|s| - |l|])
  {
    var head := s[..|s| - |l|];
    forall i | 0 <= i < |head| ensures IsSpace(head[i]) {
      assert head[i] == s[i];
    }
  }

  lemma StripRightDrops(l: string, r: string)
    requires r == StripRight(l)
    ensures IsBlank(l[|r|..])
  {
    var tail := l[|r|..];
    forall i | 0 <= i < |tail| ensures IsSpace(tail[i]) {
      assert tail[i] == l[|r| + i];
    }
  }

  /** A blank tail of a suffix `l` of `s` is a blank tail of `s`. */
  lemma BlankTail(s: string, l: string, j: nat)
    requires |l| <= |s| && l == s[|s| - |l|..] && j <= |l| && IsBlank(l[j..])
    ensures IsBlank(s[|s| - |l| + j..])
  {
    SuffixOfSuffix(s, |s| - |l|, j);
  }

  lemma SuffixOfSuffix(s: string, k: nat, j: nat)
    requires k + j <= |s|
    ensures s[k..][j..] == s[k + j..]
  {
  }

  lemma SliceOfSuffix(s: string, k: nat, n: nat)
    requires k + n <= |s|
    ensures s[k..][..n] == s[k..k + n]
  {
  }

  /** The text is empty or whitespace only, i.e. `not s.strip()`. */
  predicate IsBlank(s: string) {
    forall i :: 0 <= i < |s| ==> IsSpace(s[i])
  }

  lemma StripEmptyIffBlank(s: string)
    ensures Strip(s) == [] <==> IsBlank(s)
  {
    var l := StripLeft(s);
    if l != [] {
      assert !IsSpace(s[|s| - |l|]);
    }
  }

  /** The strings that `if s.strip():` lets through, in order. */
  function NonBlank(parts: seq<string>): seq<string> {
    if parts == [] then []
    else (if IsBlank(parts[0]) then [] else [parts[0]]) + NonBlank(parts[1..])
  }

  /** The kept strings are the non-blank ones, in their order. */
  lemma {:induction false} NonBlankProperties(parts: seq<string>)
    ensures var r := NonBlank(parts);
      IsSubsequence(r, parts)
      && (forall x :: x in r <==> x in parts && !IsBlank(x))
      && (forall k :: 0 <= k < |r| ==> !IsBlank(r[k]))
      && (r == [] <==> forall k :: 0 <= k < |parts| ==> IsBlank(parts[k]))
  {
    if parts != [] {
      var rest := NonBlank(parts[1..]);
      NonBlankProperties(parts[1..]);
      SubsequenceElements(rest, parts[1..]);
      assert forall x :: x in parts <==> x == parts[0] || x in parts[1..];
      if !IsBlank(parts[0]) {
        assert NonBlank(parts) == [parts[0]] + rest;
        assert ([parts[0]] + rest)[1..] == rest;
      } else {
        assert NonBlank(parts) == rest;
        assert IsSubsequence(rest, parts);
        assert forall k :: 1 <= k < |parts| ==> parts[k] == parts[1..][k - 1];
      }
    }
  }

  lemma {:induction false} NonBlankSnoc(parts: seq<string>, c: string)
    ensures NonBlank(parts + [c]) == NonBlank(parts) + (if IsBlank(c) then [] else [c])
    decreases |parts|
  {
    if parts == [] {
      assert NonBlank([c]) == (if IsBlank(c) then [] else [c]) + NonBlank([]);
    } else {
      var head := if IsBlank(parts[0]) then [] else [parts[0]];
      assert (parts + [c])[0] == parts[0] && (parts + [c])[1..] == parts[1..] + [c];
      assert NonBlank(parts + [c]) == head + NonBlank(parts[1..] + [c]);
      NonBlankSnoc(parts[1..], c);
      assert NonBlank(parts) == head + NonBlank(parts[1..]);
    }
  }

  /** sep.join(parts). */
  function Join(parts: seq<string>, sep: string): string {
    if |parts| == 0 then ""
    else if |parts| == 1 then parts[0]
    else parts[0] + sep + Join(parts[1..], sep)
  }

  /**
   * s.split(sep) for a non-empty separator: the pieces between the
   * non-overlapping occurrences of sep, found from left to right.
   */
  function Split(s: string, sep: string): (parts: seq<string>)
    requires |sep| > 0
    decreases |s|
    ensures |parts| >= 1
    ensures forall k :: 0 <= k < |parts| ==> !Contains(parts[k], sep)
  {
    match IndexOf(s, sep)
    case None => [s]
    case Some(j) =>
      var head := s[..j];
      assert !Contains(head, sep) by {
        forall i | OccursAt(head, sep, i) ensures false {
          OccursInPrefix(s, sep, j, i);
        }
      }
      [head] + Split(s[j + |sep|..], sep)
  }

  /**
   * Split cuts from the left: one piece exactly when the separator does not
   * occur, otherwise the first piece ends at the leftmost occurrence and the
   * remaining pieces split what follows that occurrence.
   */
  lemma SplitCutsAtFirst(s: string, sep: string)
    requires |sep| > 0
    ensures var parts := Split(s, sep);
      (|parts| == 1 <==> !Contains(s, sep))
      && (|parts| == 1 ==> parts[0] == s)
      && (|parts| > 1 ==>
            var j := |parts[0]|;
            j + |sep| <= |s| && parts[0] == s[..j] && OccursAt(s, sep, j)
            && (forall i :: 0 <= i < j ==> !OccursAt(s, sep, i))
            && parts[1..] == Split(s[j + |sep|..], sep))
  {
    var parts := Split(s, sep);
    match IndexOf(s, sep)
    case None =>
      assert parts == [s] && |parts| == 1;
    case Some(j) =>
      assert OccursAt(s, sep, j) && j + |sep| <= |s|;
      var tail := Split(s[j + |sep|..], sep);
      assert parts == [s[..j]] + tail;
      assert |parts| > 1 && parts[0] == s[..j] && |parts[0]| == j;
      assert parts[1..] == tail == Split(s[|parts[0]| + |sep|..], sep);
  }

  /** Splitting and joining again with the same separator gives the text back. */
  lemma {:induction false} JoinSplit(s: string, sep: string)
    requires |sep| > 0
    decreases |s|
    ensures Join(Split(s, sep), sep) == s
  {
    match IndexOf(s, sep)
    case None =>
    case Some(j) =>
      var rest := s[j + |sep|..];
      var tail := Split(rest, sep);
      assert Split(s, sep) == [s[..j]] + tail;
      assert Join([s[..j]] + tail, sep) == s[..j] + sep + Join(tail, sep) by {
        assert ([s[..j]] + tail)[1..] == tail;
      }
      JoinSplit(rest, sep);
      assert s == s[..j] + sep + rest;
  }

  // ---------------------------------------------------------------------------
  // Numbers as text
  // ---------------------------------------------------------------------------

  function DigitChar(d: nat): (c: char)
    requires d < 10
    ensures IsAsciiDigit(c)
  {
    ('0' as int + d) as char
  }

  function DigitValue(c: char): (d: nat)
    requires IsAsciiDigit(c)
    ensures d < 10 && DigitChar(d) == c
  {
    c as int - '0' as int
  }

  /** str(n) for a natural number: its decimal digits, without leading zeros. */
  function NatToString(n: nat): (r: string)
    ensures |r| >= 1 && forall i :: 0 <= i < |r| ==> IsAsciiDigit(r[i])
  {
    if n < 10 then [DigitChar(n)] else NatToString(n / 10) + [DigitChar(n % 10)]
  }

  /** The value of a string of decimal digits. */
  function DigitsValue(s: string): nat
    requires forall i :: 0 <= i < |s| ==> IsAsciiDigit(s[i])
  {
    if |s| == 0 then 0 else DigitsValue(s[..|s| - 1]) * 10 + DigitValue(s[|s| - 1])
  }

  lemma {:induction false} DigitsValueOfNatToString(n: nat)
    ensures DigitsValue(NatToString(n)) == n
  {
    if n >= 10 {
      var r := NatToString(n);
      assert r[..|r| - 1] == NatToString(n / 10);
      DigitsValueOfNatToString(n / 10);
    }
  }

  /** str(n) for a Python int. */
  function IntToString(n: int): (r: string)
    ensures |r| >= 1
  {
    if n < 0 then "-" + NatToString(-n) else NatToString(n)
  }

  // ---------------------------------------------------------------------------
  // Leftmost match
  // ---------------------------------------------------------------------------

  /**
   * The leftmost position in [i, last] at which `at` reports a match, with what
   * it reports: the way `re.search` scans a string for the first offset where a
   * pattern matches.
   */
  function Leftmost<T>(at: nat -> Option<T>, i: nat, last: nat): (r: Option<(nat, T)>)
    decreases last + 1 - i
    ensures r.Some? ==> i <= r.value.0 <= last && at(r.value.0) == Some(r.value.1)
    ensures r.Some? ==> forall j :: i <= j < r.value.0 ==> at(j).None?
    ensures r.None? ==> forall j :: i <= j <= last ==> at(j).None?
  {
    if i > last then None
    else
      match at(i)
      case Some(t) => Some((i, t))
      case None => Leftmost(at, i + 1, last)
  }
}
