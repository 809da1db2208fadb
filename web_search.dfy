/**
 * The web-search agent: the two query strings it sends and the way it cuts
 * the search tool's answer into at most three news items. The search tool
 * itself is a parameter.
 */
module WebSearch {
  import opened Wrappers
  import opened Text
  import opened Collections

  const NewsSuffix := " after:2024-01-01"
  const PreventionPrefix := "latest prevention measures for "

  /** "{disaster_type} in {country} after:2024-01-01". */
  function NewsQuery(disasterType: string, country: string): (q: string)
    ensures |q| == |disasterType| + 4 + |country| + |NewsSuffix|
    ensures q[..|disasterType|] == disasterType
    ensures OccursAt(q, " in " + country, |disasterType|)
    ensures q[|q| - |NewsSuffix|..] == NewsSuffix
  {
    disasterType + " in " + country + NewsSuffix
  }

  /** "latest prevention measures for {disaster_type} 2024". */
  function PreventionQuery(disasterType: string): (q: string)
    ensures |q| == |PreventionPrefix| + |disasterType| + 5
    ensures q[..|PreventionPrefix|] == PreventionPrefix
    ensures OccursAt(q, disasterType, |PreventionPrefix|)
    ensures q[|q| - 5..] == " 2024"
  {
    PreventionPrefix + disasterType + " 2024"
  }

  /** One news item as the agent builds it. */
  datatype NewsItem = NewsItem(title: string, snippet: string, source: Option<string>)

  /**
   * The source link: from the first "http" of the piece up to the first space
   * after it, or None when the piece has no "http".
   */
  function SourceOf(piece: string): (r: Option<string>)
    ensures r.None? <==> !Contains(piece, "http")
    ensures r.Some? ==>
      var i := IndexOf(piece, "http").value;
      |r.value| >= 4 && r.value[..4] == "http"
      && OccursAt(piece, r.value, i)
      && (forall k :: 0 <= k < |r.value| ==> r.value[k] != ' ')
      && (i + |r.value| == |piece| || piece[i + |r.value|] == ' ')
  {
    match IndexOf(piece, "http")
    case None => None
    case Some(i) =>
      var rest := piece[i..];
      assert rest[..4] == "http";
      assert forall k :: 0 <= k < 4 ==> rest[k] == "http"[k];
      var link := UpToSpace(rest);
      assert piece[i..][..|link|] == piece[i..i + |link|];
      Some(link)
  }

  /** `s.split(' ')[0]`: the text before the first space, or all of it. */
  function UpToSpace(s: string): (r: string)
    ensures |r| <= |s| && r == s[..|r|]
    ensures forall k :: 0 <= k < |r| ==> r[k] != ' '
    ensures |r| == |s| || s[|r|] == ' '
  {
    var head := Split(s, " ")[0];
    match IndexOf(s, " ")
    case None =>
      forall k | 0 <= k < |s| ensures s[k] != ' ' {
        assert !OccursAt(s, " ", k);
      }
      head
    case Some(j) =>
      forall k | 0 <= k < j ensures s[k] != ' ' {
        assert !OccursAt(s, " ", k);
      }
      head
  }

  /**
   * The title: the text before the first " - " when the piece has one,
   * otherwise its first 60 characters stripped.
   */
  function TitleOf(piece: string): (r: string)
    ensures Contains(piece, " - ") ==>
      |r| <= |piece| && r == piece[..|r|] && OccursAt(piece, " - ", |r|)
      && forall k :: 0 <= k < |r| ==> !OccursAt(piece, " - ", k)
    ensures !Contains(piece, " - ") ==> r == Strip(Take(piece, 60))
  {
    match IndexOf(piece, " - ")
    case None => Strip(Take(piece, 60))
    case Some(j) =>
      var title := Split(piece, " - ")[0];
      assert title == piece[..j];
      title
  }

  /** The item for one piece of the answer: its title, the piece itself, its link. */
  function Item(piece: string): (r: NewsItem)
    ensures r.snippet == piece && r.title == TitleOf(piece) && r.source == SourceOf(piece)
  {
    NewsItem(TitleOf(piece), piece, SourceOf(piece))
  }

  /** The items for the pieces, blank ones skipped. */
  function NewsItems(pieces: seq<string>): (r: seq<NewsItem>)
    ensures |r| == |NonBlank(pieces)| && forall k :: 0 <= k < |r| ==> r[k] == Item(NonBlank(pieces)[k])
  {
    var kept := NonBlank(pieces);
    seq(|kept|, k requires 0 <= k < |kept| => Item(kept[k]))
  }

  lemma NewsItemsSnoc(pieces: seq<string>, piece: string)
    ensures NewsItems(pieces + [piece]) == NewsItems(pieces) + (if IsBlank(piece) then [] else [Item(piece)])
  {
    NonBlankSnoc(pieces, piece);
    var a := NewsItems(pieces + [piece]);
    var b := NewsItems(pieces) + (if IsBlank(piece) then [] else [Item(piece)]);
    assert |a| == |b|;
    forall k | 0 <= k < |a| ensures a[k] == b[k] {
      if k < |NewsItems(pieces)| {
        assert a[k] == Item(NonBlank(pieces)[k]);
      }
    }
  }

  /** The first three "\n\n"-separated pieces of the answer. */
  function TopPieces(results: string): (r: seq<string>)
    ensures 1 <= |r| <= 3 && |r| <= |Split(results, "\n\n")| && r == Split(results, "\n\n")[..|r|]
    ensures |r| == if |Split(results, "\n\n")| < 3 then |Split(results, "\n\n")| else 3
  {
    Take(Split(results, "\n\n"), 3)
  }

  /** get_current_news: the items for the first three pieces of the tool's answer. */
  method GetCurrentNews(disasterType: string, country: string, search: string -> string)
    returns (formatted: seq<NewsItem>)
    ensures formatted == NewsItems(TopPieces(search(NewsQuery(disasterType, country))))
  {
    var results := search(NewsQuery(disasterType, country));
    var pieces := TopPieces(results);
    formatted := [];
    var i := 0;
    while i < |pieces|
      invariant 0 <= i <= |pieces|
      invariant formatted == NewsItems(pieces[..i])
    {
      var result := pieces[i];
      ghost var next := if IsBlank(result) then [] else [Item(result)];
      assert NewsItems(pieces[..i + 1]) == formatted + next by {
        assert pieces[..i + 1] == pieces[..i] + [result];
        NewsItemsSnoc(pieces[..i], result);
      }
      assert Strip(result) == "" <==> IsBlank(result) by {
        StripEmptyIffBlank(result);
      }
      if Strip(result) == "" {
        i := i + 1;
        continue;
      }
      var source := None;
      if Contains(result, "http") {
        var at := IndexOf(result, "http").value;
        source := Some(UpToSpace(result[at..]));
      }
      assert source == SourceOf(result);
      formatted := formatted + [NewsItem(TitleOf(result), result, source)];
      assert formatted == NewsItems(pieces[..i + 1]);
      i := i + 1;
    }
    assert pieces[..i] == pieces;
  }

  /** get_prevention_updates: the tool's answer to the prevention query, unchanged. */
  method GetPreventionUpdates(disasterType: string, search: string -> string) returns (answer: string)
    ensures answer == search(PreventionQuery(disasterType))
  {
    answer := search(PreventionQuery(disasterType));
  }

  /**
   * At most three items, each for a non-blank piece among the first three,
   * in their order, and none of those pieces is missed.
   */
  lemma {:induction false} NewsItemsProperties(results: string)
    ensures var pieces := TopPieces(results);
      var items := NewsItems(pieces);
      |items| <= 3
      && (forall k :: 0 <= k < |items| ==> !IsBlank(items[k].snippet) && items[k] == Item(items[k].snippet))
      && IsSubsequence(NonBlank(pieces), pieces)
      && (forall k :: 0 <= k < |items| ==> items[k].snippet == NonBlank(pieces)[k])
      && (forall p :: p in pieces && !IsBlank(p) ==> exists k :: 0 <= k < |items| && items[k].snippet == p)
  {
    var pieces := TopPieces(results);
    NonBlankProperties(pieces);
    SubsequenceLength(NonBlank(pieces), pieces);
    var items := NewsItems(pieces);
    forall p | p in pieces && !IsBlank(p) ensures exists k :: 0 <= k < |items| && items[k].snippet == p {
      var k :| 0 <= k < |NonBlank(pieces)| && NonBlank(pieces)[k] == p;
      assert items[k].snippet == p;
    }
  }

  /** An answer without a blank line is one piece: one item for it, or none when it is blank. */
  lemma SinglePiece(results: string)
    requires !Contains(results, "\n\n")
    ensures NewsItems(TopPieces(results)) == if IsBlank(results) then [] else [Item(results)]
  {
    assert Split(results, "\n\n") == [results];
    assert TopPieces(results) == [results];
    assert NonBlank([results]) == NonBlank([]) + (if IsBlank(results) then [] else [results]) by {
      NonBlankSnoc([], results);
    }
  }
}
