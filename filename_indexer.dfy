/**
 * The indexer that reads one year and quarter for the whole file from its
 * file name with (Q[1-4])[-_]?(\d{4}) and records the file name as source.
 */
module FilenameIndexer {
  import opened Wrappers
  import opened Text
  import opened QuarterPatterns
  import opened Indexing

  /** (year, quarter upper-cased) from the leftmost match in the file name, or (None, None). */
  function ExtractQuarterYearFromFilename(filename: string): (r: (Option<string>, Option<string>))
    ensures r.0.Some? <==> r.1.Some?
    ensures r.0.None? <==> forall i, j :: !FilenameMatch(filename, i, j)
    ensures r.0.Some? ==> IsYearText(r.0.value) && IsQuarterName(r.1.value)
  {
    match FirstFilenameMatch(filename)
    case None => (None, None)
    case Some((_, g)) => (Some(g.year), Some(QuarterName(g.quarter)))
  }

  /** The year and quarter are those of the leftmost match. */
  lemma FilenameQuarterYearIsLeftmost(filename: string, i: int, j: int)
    requires FilenameMatch(filename, i, j) && NoFilenameMatchBefore(filename, i)
    ensures ExtractQuarterYearFromFilename(filename) == (Some(filename[j..j + 4]), Some(Upper(filename[i..i + 2])))
  {
    FilenameSearchIsLeftmost(filename, i, j);
  }

  /**
   * {"source": filename or "in-memory", "year": ..., "quarter": ...}, the same
   * for every chunk of the file.
   */
  function FileMetadata(filename: Option<string>): (m: Metadata)
    ensures m.Keys == {"source", "year", "quarter"}
    ensures m["source"] == if Truthy(filename) then filename.value else "in-memory"
    ensures var (year, quarter) := ExtractQuarterYearFromFilename(OrDefault(filename, ""));
      (year.Some? ==> m["year"] == year.value && m["quarter"] == quarter.value)
      && (year.None? ==> m["year"] == "unknown" && m["quarter"] == "unknown")
  {
    var (year, quarter) := ExtractQuarterYearFromFilename(OrDefault(filename, ""));
    map["source" := OrDefault(filename, "in-memory"),
        "year" := OrDefault(year, "unknown"),
        "quarter" := OrDefault(quarter, "unknown")]
  }

  /** index_json_content with the file's metadata on every document. */
  method IndexJsonContent(content: Content, filename: Option<string>, indexName: string,
                          apiKey: Option<string>, parse: string -> Option<Payload>)
    returns (r: Result<Option<Indexed>, string>)
    ensures r == LoopIndexResult(content, indexName, apiKey, parse, _ => FileMetadata(filename))
  {
    r := LoopIndex(content, indexName, apiKey, parse, _ => FileMetadata(filename));
  }

  /**
   * Every document of the store carries the same metadata, that of the file
   * name, whatever its own text says.
   */
  lemma DocumentsShareFileMetadata(content: Content, filename: Option<string>, indexName: string,
                                   apiKey: Option<string>, parse: string -> Option<Payload>, k: nat)
    requires var r := LoopIndexResult(content, indexName, apiKey, parse, _ => FileMetadata(filename));
      r.Ok? && r.value.Some? && k < |r.value.value.documents|
    ensures var d := LoopIndexResult(content, indexName, apiKey, parse, _ => FileMetadata(filename)).value.value.documents[k];
      !IsBlank(d.pageContent) && d.metadata == FileMetadata(filename)
  {
    LoopIndexOutcome(content, indexName, apiKey, parse, _ => FileMetadata(filename));
  }

  /** Without a file name the documents are "in-memory" and of an unknown quarter. */
  lemma NoFilenameIsUnknown()
    ensures FileMetadata(None) == map["source" := "in-memory", "year" := "unknown", "quarter" := "unknown"]
  {
    assert ExtractQuarterYearFromFilename("").0.None? by {
      forall i, j ensures !FilenameMatch("", i, j) {
        assert !(0 <= i && i + 2 <= 0);
      }
    }
  }
}
