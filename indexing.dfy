/**
 * What the three index_json_content variants share: the Pinecone-compliant
 * index name, the parsed JSON content and its "chunks" list, the conversion
 * of each chunk to text, and the loop that turns the non-blank chunks into
 * documents with metadata.
 *
 * JSON parsing is a collaborator: it gives the parsed dict, or None for a
 * JSONDecodeError.
 */
module Indexing {
  import opened Wrappers
  import opened Text
  import opened Collections

  // ---------------------------------------------------------------------------
  // Index names
  // ---------------------------------------------------------------------------

  /** index_name.lower().replace("_", "-"). */
  function NormaliseIndexName(name: string): (r: string)
    ensures |r| == |name|
    ensures IsLowerCase(r)
    ensures forall k :: 0 <= k < |r| ==> r[k] != '_'
    ensures forall k :: 0 <= k < |r| ==> r[k] == (if name[k] == '_' then '-' else LowerChar(name[k]))
  {
    seq(|name|, k requires 0 <= k < |name| => var c := LowerChar(name[k]); if c == '_' then '-' else c)
  }

  /** Normalising a normalised name changes nothing. */
  lemma NormaliseIndexNameIdempotent(name: string)
    ensures NormaliseIndexName(NormaliseIndexName(name)) == NormaliseIndexName(name)
  {
    var n := NormaliseIndexName(name);
    forall k | 0 <= k < |n| ensures NormaliseIndexName(n)[k] == n[k] {
      assert !IsUpper(n[k]);
    }
  }

  // ---------------------------------------------------------------------------
  // The parsed content
  // ---------------------------------------------------------------------------

  /** One entry of the "chunks" list: a string, a dict with an optional "content" string, or some other value. */
  datatype ChunkItem =
    | StrChunk(text: string)
    | DictChunk(content: Option<string>)
    | OtherChunk(typeName: string)

  /** The value under "chunks": a list, or anything else. */
  datatype ChunksValue = ChunkList(items: seq<ChunkItem>) | NotAList

  /** The parsed dict, as far as it is read: its "chunks" entry if there is one. */
  datatype Payload = Payload(chunks: Option<ChunksValue>)

  /** json_content: a string to parse, or an already parsed dict. */
  datatype Content = Raw(text: string) | Parsed(data: Payload)

  /** `json.loads(json_content) if isinstance(json_content, str) else json_content`; None is a JSONDecodeError. */
  function Load(content: Content, parse: string -> Option<Payload>): Option<Payload> {
    match content
    case Raw(text) => parse(text)
    case Parsed(data) => Some(data)
  }

  const MissingApiKey: string := "\U{274C} Pinecone API Key is missing!"
  const InvalidJson: string := "\U{274C} Invalid JSON format."
  const NoValidChunks: string := "\U{274C} No valid chunks found in the JSON content."

  /** The AttributeError that `.get` raises on an entry that is neither a string nor a dict. */
  function NoGetAttribute(typeName: string): string {
    "'" + typeName + "' object has no attribute 'get'"
  }

  /** The "chunks" list, or the ValueError raised when it is missing or not a list. */
  function ChunkItems(data: Payload): (r: Result<seq<ChunkItem>, string>)
    ensures r.Err? <==> data.chunks.None? || data.chunks.value.NotAList?
    ensures r.Err? ==> r.error == NoValidChunks
  {
    match data.chunks
    case Some(ChunkList(items)) => Ok(items)
    case _ => Err(NoValidChunks)
  }

  /**
   * `chunk if isinstance(chunk, str) else chunk.get("content", "")`: a string
   * is its own text, a dict gives its "content" or "" without one, and any
   * other value raises the AttributeError of `.get`.
   */
  function ChunkText(item: ChunkItem): (r: Result<string, string>)
    ensures r.Err? <==> item.OtherChunk?
    ensures item.StrChunk? ==> r == Ok(item.text)
    ensures item.DictChunk? && item.content.Some? ==> r == Ok(item.content.value)
    ensures item.DictChunk? && item.content.None? ==> r == Ok("")
    ensures item.OtherChunk? ==> r == Err(NoGetAttribute(item.typeName))
  {
    match item
    case StrChunk(text) => Ok(text)
    case DictChunk(content) => Ok(content.GetOr(""))
    case OtherChunk(typeName) => Err(NoGetAttribute(typeName))
  }

  /** The list comprehension over the entries: their texts in order, or the first entry's AttributeError. */
  function ChunkTexts(items: seq<ChunkItem>): (r: Result<seq<string>, string>)
    ensures r.Ok? <==> forall k :: 0 <= k < |items| ==> !items[k].OtherChunk?
    ensures r.Ok? ==> |r.value| == |items| && forall k :: 0 <= k < |items| ==> r.value[k] == ChunkText(items[k]).value
    ensures r.Err? ==> exists k :: 0 <= k < |items| && items[k].OtherChunk? && r.error == NoGetAttribute(items[k].typeName)
                                   && forall j :: 0 <= j < k ==> !items[j].OtherChunk?
  {
    if items == [] then Ok([])
    else
      match ChunkText(items[0])
      case Err(e) => Err(e)
      case Ok(t) =>
        match ChunkTexts(items[1..])
        case Err(e) => Err(e)
        case Ok(ts) => Ok([t] + ts)
  }

  // ---------------------------------------------------------------------------
  // Documents
  // ---------------------------------------------------------------------------

  type Metadata = map<string, string>

  datatype Document = Document(pageContent: string, metadata: Metadata)

  /** One document per kept chunk, in order, with the metadata `meta` gives for its text. */
  function DocumentsOf(kept: seq<string>, meta: string -> Metadata): (r: seq<Document>)
    ensures |r| == |kept| && forall k :: 0 <= k < |kept| ==> r[k] == Document(kept[k], meta(kept[k]))
  {
    seq(|kept|, k requires 0 <= k < |kept| => Document(kept[k], meta(kept[k])))
  }

  lemma DocumentsOfSnoc(kept: seq<string>, c: string, meta: string -> Metadata)
    ensures DocumentsOf(kept + [c], meta) == DocumentsOf(kept, meta) + [Document(c, meta(c))]
  {
  }

  /**
   * The loop `for chunk in chunks: if chunk.strip(): documents.append(...)`:
   * one document per non-blank chunk, in order.
   */
  method BuildDocuments(chunks: seq<string>, meta: string -> Metadata) returns (documents: seq<Document>)
    ensures documents == DocumentsOf(NonBlank(chunks), meta)
  {
    documents := [];
    var i := 0;
    while i < |chunks|
      invariant 0 <= i <= |chunks|
      invariant documents == DocumentsOf(NonBlank(chunks[..i]), meta)
    {
      var chunk := chunks[i];
      assert chunks[..i + 1] == chunks[..i] + [chunk];
      NonBlankSnoc(chunks[..i], chunk);
      StripEmptyIffBlank(chunk);
      if Strip(chunk) != "" {
        DocumentsOfSnoc(NonBlank(chunks[..i]), chunk, meta);
        documents := documents + [Document(chunk, meta(chunk))];
      }
      i := i + 1;
    }
    assert chunks[..i] == chunks;
  }

  /** The vector store after indexing: the index it writes to and the documents added. */
  datatype Indexed = Indexed(indexName: string, documents: seq<Document>)

  // ---------------------------------------------------------------------------
  // index_json_content, up to the documents
  // ---------------------------------------------------------------------------

  predicate Truthy(s: Option<string>) {
    s.Some? && s.value != ""
  }

  /** `x or default` on an optional string. */
  function OrDefault(x: Option<string>, default: string): (r: string)
    ensures Truthy(x) ==> r == x.value
    ensures !Truthy(x) ==> r == default
  {
    if Truthy(x) then x.value else default
  }

  /**
   * The checks index_json_content makes in order (the API key, the JSON, the
   * "chunks" list) and the chunk texts; each variant words the first two
   * errors its own way.
   */
  function LoadChunkTexts(content: Content, apiKey: Option<string>, parse: string -> Option<Payload>,
                          missingKey: string, invalidJson: string): (r: Result<seq<string>, string>)
    ensures !Truthy(apiKey) ==> r == Err(missingKey)
    ensures Truthy(apiKey) && Load(content, parse).None? ==> r == Err(invalidJson)
    ensures Truthy(apiKey) && Load(content, parse).Some? ==>
      var data := Load(content, parse).value;
      (ChunkItems(data).Err? ==> r == Err(NoValidChunks))
      && (ChunkItems(data).Ok? ==> r == ChunkTexts(ChunkItems(data).value))
  {
    if !Truthy(apiKey) then Err(missingKey)
    else
      match Load(content, parse)
      case None => Err(invalidJson)
      case Some(data) =>
        match ChunkItems(data)
        case Err(e) => Err(e)
        case Ok(items) => ChunkTexts(items)
  }

  /**
   * The result of the two variants that build their documents in a loop: a
   * ValueError or AttributeError, None when no chunk is left, or the store
   * with one document per non-blank chunk.
   */
  function LoopIndexResult(content: Content, indexName: string, apiKey: Option<string>,
                           parse: string -> Option<Payload>, meta: string -> Metadata): Result<Option<Indexed>, string>
  {
    match LoadChunkTexts(content, apiKey, parse, MissingApiKey, InvalidJson)
    case Err(e) => Err(e)
    case Ok(texts) =>
      var documents := DocumentsOf(NonBlank(texts), meta);
      if documents == [] then Ok(None) else Ok(Some(Indexed(NormaliseIndexName(indexName), documents)))
  }

  /**
   * The two loop variants' shared body: the checks in order, then one document
   * per non-blank chunk built in a loop, then None when the loop kept nothing.
   */
  method LoopIndex(content: Content, indexName: string, apiKey: Option<string>,
                   parse: string -> Option<Payload>, meta: string -> Metadata)
    returns (r: Result<Option<Indexed>, string>)
    ensures r == LoopIndexResult(content, indexName, apiKey, parse, meta)
  {
    var name := NormaliseIndexName(indexName);
    var chunks := LoadChunkTexts(content, apiKey, parse, MissingApiKey, InvalidJson);
    if chunks.Err? {
      return Err(chunks.error);
    }
    var documents := BuildDocuments(chunks.value, meta);
    if documents == [] {
      return Ok(None);
    }
    return Ok(Some(Indexed(name, documents)));
  }

  /**
   * When the content loads, the loop variants return None exactly when every
   * chunk is blank; otherwise the store writes to the normalised index and
   * holds one document per non-blank chunk, in order, each with its text's
   * metadata.
   */
  lemma LoopIndexOutcome(content: Content, indexName: string, apiKey: Option<string>,
                         parse: string -> Option<Payload>, meta: string -> Metadata)
    requires LoadChunkTexts(content, apiKey, parse, MissingApiKey, InvalidJson).Ok?
    ensures var texts := LoadChunkTexts(content, apiKey, parse, MissingApiKey, InvalidJson).value;
      var r := LoopIndexResult(content, indexName, apiKey, parse, meta);
      r.Ok?
      && (r.value.None? <==> forall k :: 0 <= k < |texts| ==> IsBlank(texts[k]))
      && (r.value.Some? ==>
            r.value.value.indexName == NormaliseIndexName(indexName)
            && |r.value.value.documents| == |NonBlank(texts)|
            && forall k :: 0 <= k < |r.value.value.documents| ==>
                 var d := r.value.value.documents[k];
                 d.pageContent == NonBlank(texts)[k] && !IsBlank(d.pageContent) && d.metadata == meta(d.pageContent))
  {
    var texts := LoadChunkTexts(content, apiKey, parse, MissingApiKey, InvalidJson).value;
    NonBlankProperties(texts);
  }
}
