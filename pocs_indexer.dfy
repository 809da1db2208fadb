/**
 * The proof-of-concept indexer: no year or quarter, every document marked
 * "in-memory", an error for an empty chunk list, and only empty strings
 * dropped.
 */
module PocsIndexer {
  import opened Wrappers
  import opened Text
  import opened Collections
  import opened Indexing

  const PocsMissingApiKey := "\U{274C} Pinecone API Key is missing! Please check your .env file."
  const PocsInvalidJson := "\U{274C} Invalid JSON format in the content."
  const NoContent := "\U{274C} No content found in the JSON chunks."

  /** The chunks that `if chunk` lets through, in order: all but the empty strings. */
  function NonEmpty(chunks: seq<string>): seq<string> {
    if chunks == [] then []
    else (if chunks[0] == "" then [] else [chunks[0]]) + NonEmpty(chunks[1..])
  }

  /** The kept chunks are the non-empty ones, in their order. */
  lemma {:induction false} NonEmptyProperties(chunks: seq<string>)
    ensures var r := NonEmpty(chunks);
      IsSubsequence(r, chunks)
      && (forall x :: x in r <==> x in chunks && x != "")
      && (r == [] <==> forall k :: 0 <= k < |chunks| ==> chunks[k] == "")
  {
    if chunks != [] {
      var rest := NonEmpty(chunks[1..]);
      NonEmptyProperties(chunks[1..]);
      SubsequenceElements(rest, chunks[1..]);
      assert forall x :: x in chunks <==> x == chunks[0] || x in chunks[1..];
      if chunks[0] != "" {
        assert NonEmpty(chunks) == [chunks[0]] + rest;
        assert ([chunks[0]] + rest)[1..] == rest;
      } else {
        assert NonEmpty(chunks) == rest;
        assert IsSubsequence(rest, chunks);
        assert forall k :: 1 <= k < |chunks| ==> chunks[k] == chunks[1..][k - 1];
      }
    }
  }

  const InMemory: Metadata := map["source" := "in-memory"]

  /**
   * index_json_content: the store, even when no document is left, or the
   * ValueError / AttributeError raised, checked in the source's order.
   */
  function PocsIndex(content: Content, indexName: string, apiKey: Option<string>,
                     parse: string -> Option<Payload>): (r: Result<Indexed, string>)
    ensures !Truthy(apiKey) ==> r == Err(PocsMissingApiKey)
    ensures Truthy(apiKey) && Load(content, parse).None? ==> r == Err(PocsInvalidJson)
    ensures var texts := LoadChunkTexts(content, apiKey, parse, PocsMissingApiKey, PocsInvalidJson);
      (texts.Err? ==> r == Err(texts.error))
      && (texts.Ok? && texts.value == [] ==> r == Err(NoContent))
      && (texts.Ok? && texts.value != [] ==>
            r.Ok? && r.value.indexName == NormaliseIndexName(indexName)
            && |r.value.documents| == |NonEmpty(texts.value)|
            && forall k :: 0 <= k < |r.value.documents| ==>
                 r.value.documents[k] == Document(NonEmpty(texts.value)[k], InMemory))
  {
    match LoadChunkTexts(content, apiKey, parse, PocsMissingApiKey, PocsInvalidJson)
    case Err(e) => Err(e)
    case Ok(chunks) =>
      if chunks == [] then Err(NoContent)
      else Ok(Indexed(NormaliseIndexName(indexName), DocumentsOf(NonEmpty(chunks), _ => InMemory)))
  }

  /** Whatever a loop variant keeps, this variant keeps too: blank includes empty. */
  lemma NonBlankKeptByPocs(chunks: seq<string>)
    ensures forall x :: x in NonBlank(chunks) ==> x in NonEmpty(chunks)
  {
    NonBlankProperties(chunks);
    NonEmptyProperties(chunks);
    assert IsBlank("") by { StripEmptyIffBlank(""); }
  }

  /** A chunk list of empty strings still yields a store, with no document in it. */
  lemma EmptyStringsStillIndex(indexName: string, apiKey: string, parse: string -> Option<Payload>)
    requires apiKey != ""
    ensures PocsIndex(Parsed(Payload(Some(ChunkList([StrChunk("")])))), indexName, Some(apiKey), parse)
            == Ok(Indexed(NormaliseIndexName(indexName), []))
  {
    assert NonEmpty([""]) == [];
  }

  /**
   * A whitespace-only chunk is indexed here, while the loop variants drop it
   * and return None.
   */
  lemma WhitespaceChunkKeptOnlyHere(indexName: string, apiKey: string, parse: string -> Option<Payload>,
                                    meta: string -> Metadata)
    requires apiKey != ""
    ensures var content := Parsed(Payload(Some(ChunkList([StrChunk(" ")]))));
      PocsIndex(content, indexName, Some(apiKey), parse)
        == Ok(Indexed(NormaliseIndexName(indexName), [Document(" ", InMemory)]))
      && LoopIndexResult(content, indexName, Some(apiKey), parse, meta) == Ok(None)
  {
    var content := Parsed(Payload(Some(ChunkList([StrChunk(" ")]))));
    var texts := ChunkTexts([StrChunk(" ")]);
    assert texts.Ok? && texts.value[0] == " ";
    assert texts.value == [" "];
    assert Load(content, parse) == Some(Payload(Some(ChunkList([StrChunk(" ")]))));
    assert LoadChunkTexts(content, Some(apiKey), parse, PocsMissingApiKey, PocsInvalidJson) == Ok([" "]);
    assert NonEmpty([" "]) == [" "];
    var docs := DocumentsOf([" "], _ => InMemory);
    assert docs == [Document(" ", InMemory)];
    assert IsBlank(" ") by { StripEmptyIffBlank(" "); }
    assert NonBlank([" "]) == [];
  }
}
