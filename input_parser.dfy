/**
 * The prompt parser: normalise the prompt, find a disaster type and a country
 * from fixed vocabularies as whole words, then a year in 2000..2025.
 *
 * The vocabularies are Python sets, whose iteration order is not specified; the
 * parser therefore takes the order in which it visits each vocabulary as an
 * input, which may be any enumeration of the set.
 */
module InputParser {
  import opened Wrappers
  import opened Text

  const DisasterTypes: seq<string> := [
    "volcanic activity", "flood", "storm", "earthquake", "wildfire", "epidemic",
    "mass movement (wet)", "infestation", "extreme temperature", "drought",
    "mass movement (dry)"
  ]

  const Countries: seq<string> := [
    "guatemala", "brazil", "united states of america", "colombia", "argentina",
    "peru", "bolivia (plurinational state of)", "ecuador", "french guiana",
    "uruguay", "mexico", "chile", "nicaragua", "costa rica", "paraguay",
    "panama", "belize", "cuba", "jamaica", "puerto rico",
    "venezuela (bolivarian republic of)", "haiti", "dominican republic",
    "barbados", "grenada", "saint vincent and the grenadines", "bermuda",
    "saint lucia", "united states virgin islands", "martinique",
    "turks and caicos islands", "antigua and barbuda", "british virgin islands",
    "canada", "el salvador", "cayman islands", "bahamas", "honduras",
    "trinidad and tobago", "dominica", "guadeloupe", "guyana", "suriname",
    "saint kitts and nevis", "anguilla", "saint barth\U{E9}lemy",
    "saint martin (french part)", "sint maarten (dutch part)", "montserrat"
  ]

  /** Membership in VALID_YEARS, the strings "2000" to "2025". */
  predicate IsValidYear(y: int) {
    2000 <= y <= 2025
  }

  /** `order` visits exactly the terms of the vocabulary `vocab` (in some order). */
  predicate Enumerates(order: seq<string>, vocab: seq<string>) {
    (forall t :: t in order ==> t in vocab) && (forall t :: t in vocab ==> t in order)
  }

  /** `t` is the only term of `vocab` that matches `text` as a whole word. */
  predicate OnlyMatch(vocab: seq<string>, text: string, t: string) {
    t in vocab && MatchesWholeWord(text, t)
    && forall u :: u in vocab && MatchesWholeWord(text, u) ==> u == t
  }

  // ---------------------------------------------------------------------------
  // Normalisation: re.sub(r'\s+', ' ', prompt.lower()).strip()
  // ---------------------------------------------------------------------------

  /** Replace every maximal run of whitespace by a single space. */
  function CollapseSpaces(s: string): (r: string)
    decreases |s|
    ensures |r| == 0 <==> |s| == 0
    ensures |s| > 0 ==> (IsSpace(r[0]) <==> IsSpace(s[0]))
    ensures IsLowerCase(s) ==> IsLowerCase(r)
    ensures forall i :: 0 <= i < |r| && IsSpace(r[i]) ==> r[i] == ' '
    ensures forall i :: 0 <= i < |r| - 1 ==> !(IsSpace(r[i]) && IsSpace(r[i + 1]))
  {
    if s == [] then []
    else if IsSpace(s[0]) then
      var rest := StripLeft(s);
      [' '] + CollapseSpaces(rest)
    else
      [s[0]] + CollapseSpaces(s[1..])
  }

  /** The parser's normalised prompt. */
  function Normalise(prompt: string): string {
    Strip(CollapseSpaces(Lower(prompt)))
  }

  /**
   * The normalised prompt is lower-case, uses no whitespace but ' ', has no two
   * spaces in a row and neither starts nor ends with a space.
   */
  lemma NormaliseShape(prompt: string, n: string)
    requires n == Normalise(prompt)
    ensures IsLowerCase(n)
    ensures forall i :: 0 <= i < |n| && IsSpace(n[i]) ==> n[i] == ' '
    ensures forall i :: 0 <= i < |n| - 1 ==> !(n[i] == ' ' && n[i + 1] == ' ')
    ensures n == [] || (n[0] != ' ' && n[|n| - 1] != ' ')
  {
    LowerIsLowerCase(prompt);
    StripShape(CollapseSpaces(Lower(prompt)));
  }

  /** Stripping the collapsed text keeps its shape and removes the outer spaces. */
  lemma StripShape(c: string)
    requires IsLowerCase(c)
    requires forall i :: 0 <= i < |c| && IsSpace(c[i]) ==> c[i] == ' '
    requires forall i :: 0 <= i < |c| - 1 ==> !(IsSpace(c[i]) && IsSpace(c[i + 1]))
    ensures var n := Strip(c);
      IsLowerCase(n)
      && (forall i :: 0 <= i < |n| && IsSpace(n[i]) ==> n[i] == ' ')
      && (forall i :: 0 <= i < |n| - 1 ==> !(n[i] == ' ' && n[i + 1] == ' '))
  {
    var k := |c| - |StripLeft(c)|;
    var n := Strip(c);
    SliceShape(c, k, k + |n|, n);
  }

  /** A slice keeps the character-wise properties of the collapsed text. */
  lemma SliceShape(c: string, lo: nat, hi: nat, n: string)
    requires lo <= hi <= |c| && n == c[lo..hi]
    requires IsLowerCase(c)
    requires forall i :: 0 <= i < |c| && IsSpace(c[i]) ==> c[i] == ' '
    requires forall i :: 0 <= i < |c| - 1 ==> !(IsSpace(c[i]) && IsSpace(c[i + 1]))
    ensures IsLowerCase(n)
    ensures forall i :: 0 <= i < |n| && IsSpace(n[i]) ==> n[i] == ' '
    ensures forall i :: 0 <= i < |n| - 1 ==> !(n[i] == ' ' && n[i + 1] == ' ')
  {
    forall i | 0 <= i < |n| - 1 ensures !(n[i] == ' ' && n[i + 1] == ' ') {
      assert n[i] == c[lo + i] && n[i + 1] == c[lo + i + 1];
    }
  }

  // ---------------------------------------------------------------------------
  // Whole-word matching: re.search(r'\b' + re.escape(term) + r'\b', text)
  // ---------------------------------------------------------------------------

  /** `\b` holds at offset i: exactly one of the characters around it is a word character. */
  predicate IsBoundary(s: string, i: int) {
    0 <= i <= |s| && ((i > 0 && IsWordChar(s[i - 1])) != (i < |s| && IsWordChar(s[i])))
  }

  predicate WholeWordAt(s: string, t: string, i: int) {
    OccursAt(s, t, i) && IsBoundary(s, i) && IsBoundary(s, i + |t|)
  }

  /** The pattern `\bterm\b` has a match somewhere in `s`. */
  predicate MatchesWholeWord(s: string, t: string) {
    exists i | 0 <= i <= |s| :: WholeWordAt(s, t, i)
  }

  /**
   * A term whose last character is ')' is only ever matched when a word
   * character follows it, since `\b` after a non-word character needs a word
   * character next.
   */
  lemma ParenthesisedTermNeedsWordAfter(s: string, t: string, i: int)
    requires |t| > 0 && t[|t| - 1] == ')'
    requires WholeWordAt(s, t, i)
    ensures i + |t| < |s| && IsWordChar(s[i + |t|])
  {
    assert s[i + |t| - 1] == s[i..i + |t|][|t| - 1];
  }

  /** The first term, in visiting order, that matches as a whole word; None when none does. */
  function FirstMatch(order: seq<string>, s: string): (r: Option<string>)
    ensures r.Some? ==> r.value in order && MatchesWholeWord(s, r.value)
    ensures r.None? <==> forall t :: t in order ==> !MatchesWholeWord(s, t)
  {
    if order == [] then None
    else if MatchesWholeWord(s, order[0]) then Some(order[0])
    else FirstMatch(order[1..], s)
  }

  lemma {:induction false} FirstMatchAt(order: seq<string>, s: string, i: nat)
    requires i < |order| && MatchesWholeWord(s, order[i])
    requires forall k :: 0 <= k < i ==> !MatchesWholeWord(s, order[k])
    ensures FirstMatch(order, s) == Some(order[i])
  {
    if i > 0 {
      assert !MatchesWholeWord(s, order[0]);
      FirstMatchAt(order[1..], s, i - 1);
    }
  }

  // ---------------------------------------------------------------------------
  // Year: re.search(r'\b(20[0-2][0-9])\b', text), then a VALID_YEARS check
  // ---------------------------------------------------------------------------

  /** The year pattern matches at offset i, giving the value of its four digits. */
  function YearAt(s: string, i: nat): (r: Option<int>)
    ensures r.Some? ==> i + 4 <= |s| && 2000 <= r.value <= 2029
  {
    if i + 4 <= |s| && IsBoundary(s, i) && s[i] == '2' && s[i + 1] == '0'
       && '0' <= s[i + 2] <= '2' && IsAsciiDigit(s[i + 3]) && IsBoundary(s, i + 4)
    then Some(2000 + 10 * DigitValue(s[i + 2]) + DigitValue(s[i + 3]))
    else None
  }

  /** The first match of the year pattern, as `re.search` reports it. */
  function FirstYearMatch(s: string): (r: Option<(nat, int)>)
    ensures r.Some? ==> r.value.0 <= |s| && YearAt(s, r.value.0) == Some(r.value.1)
    ensures r.Some? ==> forall j :: 0 <= j < r.value.0 ==> YearAt(s, j).None?
    ensures r.None? ==> forall j :: 0 <= j <= |s| ==> YearAt(s, j).None?
  {
    var at := (i: nat) => YearAt(s, i);
    assert forall j: nat :: at(j) == YearAt(s, j);
    Leftmost(at, 0, |s|)
  }

  /** The parser's year: the first match of the pattern, kept only if it is a valid year. */
  function ExtractYear(s: string): (r: Option<int>)
    ensures r.Some? ==> IsValidYear(r.value)
  {
    match FirstYearMatch(s)
    case Some((_, y)) => if IsValidYear(y) then Some(y) else None
    case None => None
  }

  /**
   * Only the first match counts: a year 2026..2029 that comes first hides any
   * valid year after it, and a returned year is the first match in the text.
   */
  lemma ExtractYearIsFirstMatch(s: string, i: nat)
    requires i <= |s| && YearAt(s, i).Some?
    requires forall k :: 0 <= k < i ==> YearAt(s, k).None?
    ensures IsValidYear(YearAt(s, i).value) ==> ExtractYear(s) == YearAt(s, i)
    ensures !IsValidYear(YearAt(s, i).value) ==> ExtractYear(s).None?
  {
    var m := FirstYearMatch(s);
    assert m.Some? && m.value.0 == i;
  }

  // ---------------------------------------------------------------------------
  // parse_disaster_prompt
  // ---------------------------------------------------------------------------

  /** What parse_disaster_prompt returns, for given visiting orders of the two vocabularies. */
  function Parse(prompt: string, disasterOrder: seq<string>, countryOrder: seq<string>)
    : (Option<string>, Option<string>, Option<int>)
  {
    var n := Normalise(prompt);
    (FirstMatch(disasterOrder, n), FirstMatch(countryOrder, n), ExtractYear(n))
  }

  /** Visit the terms in `order` and stop at the first that matches `text` as a whole word. */
  method FindTerm(text: string, order: seq<string>) returns (found: Option<string>)
    ensures found == FirstMatch(order, text)
  {
    found := None;
    for i := 0 to |order|
      invariant found.None?
      invariant forall k :: 0 <= k < i ==> !MatchesWholeWord(text, order[k])
    {
      if MatchesWholeWord(text, order[i]) {
        found := Some(order[i]);
        FirstMatchAt(order, text, i);
        return;
      }
    }
  }

  method ParseDisasterPrompt(prompt: string, disasterOrder: seq<string>, countryOrder: seq<string>)
    returns (disasterType: Option<string>, country: Option<string>, year: Option<int>)
    requires Enumerates(disasterOrder, DisasterTypes) && Enumerates(countryOrder, Countries)
    ensures (disasterType, country, year) == Parse(prompt, disasterOrder, countryOrder)
    ensures disasterType.Some? ==>
      disasterType.value in DisasterTypes && MatchesWholeWord(Normalise(prompt), disasterType.value)
    ensures disasterType.None? <==> forall t :: t in DisasterTypes ==> !MatchesWholeWord(Normalise(prompt), t)
    ensures forall t :: OnlyMatch(DisasterTypes, Normalise(prompt), t) ==> disasterType == Some(t)
    ensures country.Some? ==>
      country.value in Countries && MatchesWholeWord(Normalise(prompt), country.value)
    ensures country.None? <==> forall t :: t in Countries ==> !MatchesWholeWord(Normalise(prompt), t)
    ensures forall t :: OnlyMatch(Countries, Normalise(prompt), t) ==> country == Some(t)
    ensures year.Some? ==> IsValidYear(year.value)
  {
    var normalized := Normalise(prompt);
    disasterType := FindTerm(normalized, disasterOrder);
    country := FindTerm(normalized, countryOrder);
    year := ExtractYear(normalized);
  }
}
