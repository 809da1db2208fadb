/**
 * The indexer that reads each chunk's year and quarter from the chunk's own
 * text with (Q[1-4])\s*[,:\-]?\s*(\d{4}), defaulting to "unknown".
 */
module YearQuarterIndexer {
  import opened Wrappers
  import opened Text
  import opened QuarterPatterns
  import opened Indexing

  /** (year, quarter upper-cased), year first, from the leftmost match in the text, or (None, None). */
  function ExtractQuarterYear(text: string): (r: (Option<string>, Option<string>))
    ensures r.0.Some? <==> r.1.Some?
    ensures r.0.None? <==> forall i, j :: !ChunkMatch(text, i, j)
    ensures r.0.Some? ==> IsYearText(r.0.value) && IsQuarterName(r.1.value)
  {
    match FirstChunkMatch(text)
    case None => (None, None)
    case Some((_, g)) => (Some(g.year), Some(QuarterName(g.quarter)))
  }

  /** The year and quarter are those of the leftmost match. */
  lemma ExtractQuarterYearIsLeftmost(text: string, i: int, j: int)
    requires ChunkMatch(text, i, j) && NoChunkMatchBefore(text, i)
    ensures ExtractQuarterYear(text) == (Some(text[j..j + 4]), Some(Upper(text[i..i + 2])))
  {
    ChunkSearchIsLeftmost(text, i, j);
  }

  /** {"year": year or "unknown", "quarter": quarter or "unknown"} for the chunk's own text. */
  function ChunkMetadata(chunk: string): (m: Metadata)
    ensures m.Keys == {"year", "quarter"}
    ensures var (year, quarter) := ExtractQuarterYear(chunk);
      (year.Some? ==> m["year"] == year.value && m["quarter"] == quarter.value)
      && (year.None? ==> m["year"] == "unknown" && m["quarter"] == "unknown")
  {
    var (year, quarter) := ExtractQuarterYear(chunk);
    map["year" := OrDefault(year, "unknown"), "quarter" := OrDefault(quarter, "unknown")]
  }

  /**
   * index_json_content: the store with one document per non-blank chunk, None
   * when no chunk is left, or the ValueError / AttributeError raised.
   */
  method IndexJsonContent(content: Content, indexName: string, apiKey: Option<string>, parse: string -> Option<Payload>)
    returns (r: Result<Option<Indexed>, string>)
    ensures r == LoopIndexResult(content, indexName, apiKey, parse, ChunkMetadata)
  {
    r := LoopIndex(content, indexName, apiKey, parse, ChunkMetadata);
  }

  /**
   * Each document's year and quarter come from its own text: those of the
   * leftmost match when there is one, "unknown" for both otherwise.
   */
  lemma DocumentsCarryTheirOwnQuarter(content: Content, indexName: string, apiKey: Option<string>,
                                      parse: string -> Option<Payload>, k: nat)
    requires var r := LoopIndexResult(content, indexName, apiKey, parse, ChunkMetadata);
      r.Ok? && r.value.Some? && k < |r.value.value.documents|
    ensures var d := LoopIndexResult(content, indexName, apiKey, parse, ChunkMetadata).value.value.documents[k];
      var (year, quarter) := ExtractQuarterYear(d.pageContent);
      !IsBlank(d.pageContent)
      && d.metadata.Keys == {"year", "quarter"}
      && d.metadata["year"] == (if year.Some? then year.value else "unknown")
      && d.metadata["quarter"] == (if quarter.Some? then quarter.value else "unknown")
  {
    LoopIndexOutcome(content, indexName, apiKey, parse, ChunkMetadata);
  }
}
