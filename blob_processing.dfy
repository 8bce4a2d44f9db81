/** The blob-triggered handler of the Function App: it derives an extraction
    record from an uploaded file (`process_document`) and wraps it in the
    document written to the `ProcessedDocuments` container, or, when reading
    the blob fails, in an error document. */
module BlobProcessing {
  import opened Wrappers
  import opened Text

  /** The stored text is cut to this many characters. */
  const TextLimit: nat := 10000

  const ProcessingMethod: string := "basic_text_extraction"

  datatype Metadata = Metadata(
    fileExtension: string,
    fileSizeBytes: nat,
    wordCount: nat,
    characterCount: nat,
    processingMethod: string)

  /** The dictionary `process_document` returns. */
  datatype ExtractedInfo = ExtractedInfo(timestamp: string, text: string, metadata: Metadata)

  /** The document handed to the document-store output binding. */
  datatype CosmosDocument =
    | CompletedDocument(
        id: string,
        originalFileName: string,
        blobSize: nat,
        processedTimestamp: string,
        extractedText: string,
        metadata: Metadata,
        processingStatus: string)
    | ErrorDocument(
        id: string,
        originalFileName: string,
        blobSize: nat,
        processedTimestamp: string,
        error: string,
        processingStatus: string)

  /** The names whose content is decoded as UTF-8 text: those whose
      lower-cased form ends in `.txt`, `.csv` or `.json`. */
  predicate IsTextFileName(filename: string) {
    var lower := Lower(filename);
    EndsWith(lower, ".txt") || EndsWith(lower, ".csv") || EndsWith(lower, ".json")
  }

  /** The full text of a document before truncation. `decodeUtf8` stands for
      `bytes.decode('utf-8')`: None where that raises `UnicodeDecodeError`. */
  function FullText(content: seq<Byte>, filename: string, decodeUtf8: seq<Byte> -> Option<string>): string {
    if IsTextFileName(filename) then
      match decodeUtf8(content)
      case Some(text) => text
      case None => "Binary file that couldn't be decoded as text: " + filename
    else
      "Binary file: " + filename
  }

  /** The `fileExtension` metadata: the lower-cased text after the last '.',
      or "unknown" for a name without '.'. */
  function FileExtension(filename: string): (ext: string)
    ensures '.' !in filename ==> ext == "unknown"
    ensures '.' in filename ==> '.' !in ext && EndsWith(Lower(filename), "." + ext)
  {
    if '.' in filename then
      var raw := AfterLast(filename, '.');
      var stem := filename[..|filename| - |raw| - 1];
      assert filename == stem + "." + raw;
      LowerAppend(stem + ".", raw);
      LowerAppend(stem, ".");
      assert '.' !in Lower(raw) by {
        forall i | 0 <= i < |raw| ensures Lower(raw)[i] != '.' {
          assert raw[i] != '.';
        }
      }
      Lower(raw)
    else
      "unknown"
  }

  /** `process_document`: the record derived from a file's bytes and name at
      time `now` (the `utcnow().isoformat()` it reads). */
  function ProcessDocument(content: seq<Byte>, filename: string, now: string, decodeUtf8: seq<Byte> -> Option<string>): (info: ExtractedInfo)
    ensures info.timestamp == now
    // the stored text is the full text cut to TextLimit characters
    ensures var full := FullText(content, filename, decodeUtf8);
      && StartsWith(full, info.text)
      && |info.text| == (if |full| <= TextLimit then |full| else TextLimit)
      && info.metadata.characterCount == |full|
      && info.metadata.wordCount == WordStarts(full, true)
    ensures |info.text| <= info.metadata.characterCount
    ensures |info.text| < info.metadata.characterCount <==> info.metadata.characterCount > TextLimit
    ensures info.metadata.fileSizeBytes == |content|
    ensures info.metadata.fileExtension == FileExtension(filename)
    ensures info.metadata.processingMethod == ProcessingMethod
    // content is decoded only for the text file names
    ensures IsTextFileName(filename) && decodeUtf8(content).Some? ==>
      info.metadata.characterCount == |decodeUtf8(content).value|
      && StartsWith(decodeUtf8(content).value, info.text)
    ensures IsTextFileName(filename) && decodeUtf8(content).None? ==>
      StartsWith("Binary file that couldn't be decoded as text: " + filename, info.text)
    ensures !IsTextFileName(filename) ==> StartsWith("Binary file: " + filename, info.text)
  {
    var full := FullText(content, filename, decodeUtf8);
    WordsCountWordStarts(full);
    var stored := if |full| <= TextLimit then full else full[..TextLimit];
    ExtractedInfo(
      now,
      stored,
      Metadata(FileExtension(filename), |content|, |Words(full)|, |full|, ProcessingMethod))
  }

  /** `name.split('/')[-1]`: the file name at the end of the blob path. */
  function BlobName(blobPath: string): (name: string)
    ensures '/' !in name
    ensures EndsWith(blobPath, name)
    ensures '/' in blobPath ==> |name| < |blobPath| && blobPath[|blobPath| - |name| - 1] == '/'
    ensures '/' !in blobPath ==> name == blobPath
  {
    AfterLast(blobPath, '/')
  }

  /** `ts.replace(':', '-').replace('.', '-')`. */
  function SanitiseTimestamp(ts: string): (r: string)
    ensures |r| == |ts|
    ensures ':' !in r && '.' !in r
    ensures forall i :: 0 <= i < |ts| && ts[i] != ':' && ts[i] != '.' ==> r[i] == ts[i]
    ensures forall i :: 0 <= i < |ts| && (ts[i] == ':' || ts[i] == '.') ==> r[i] == '-'
  {
    var r := ReplaceChar(ReplaceChar(ts, ':', '-'), '.', '-');
    assert forall i :: 0 <= i < |r| ==> r[i] != ':' && r[i] != '.';
    r
  }

  /** `BlobTrigger`: the document written for one blob. `read` is the outcome
      of reading the blob (its bytes, or the message of the exception raised);
      `now` is the clock reading inside `process_document`, `failureIdNow` and
      `failureNow` the two separate clock readings of the error path. */
  function BlobTrigger(
    blobPath: string,
    blobLength: nat,
    read: Result<seq<Byte>, string>,
    now: string,
    failureIdNow: string,
    failureNow: string,
    decodeUtf8: seq<Byte> -> Option<string>): (doc: CosmosDocument)
    ensures doc.originalFileName == BlobName(blobPath) && doc.blobSize == blobLength
    ensures read.Success? ==>
      var info := ProcessDocument(read.value, BlobName(blobPath), now, decodeUtf8);
      && doc.CompletedDocument?
      && doc.id == BlobName(blobPath) + "_" + SanitiseTimestamp(now)
      && doc.processedTimestamp == now
      && doc.extractedText == info.text
      && doc.metadata == info.metadata
      && doc.processingStatus == "completed"
    ensures read.Failure? ==>
      && doc.ErrorDocument?
      && doc.id == BlobName(blobPath) + "_error_" + SanitiseTimestamp(failureIdNow)
      && doc.processedTimestamp == failureNow
      && doc.error == read.error
      && doc.processingStatus == "error"
  {
    var name := BlobName(blobPath);
    match read
    case Success(bytes) =>
      var info := ProcessDocument(bytes, name, now, decodeUtf8);
      CompletedDocument(
        name + "_" + SanitiseTimestamp(info.timestamp),
        name,
        blobLength,
        info.timestamp,
        info.text,
        info.metadata,
        "completed")
    case Failure(message) =>
      ErrorDocument(
        name + "_error_" + SanitiseTimestamp(failureIdNow),
        name,
        blobLength,
        failureNow,
        message,
        "error")
  }

  /** A completed document's id never equals an error document's id when the
      processing timestamp starts with a digit, as an ISO 8601 timestamp does. */
  lemma CompletedAndErrorIdsDiffer(name: string, ts: string, failureTs: string)
    requires ts != [] && IsDigit(ts[0])
    ensures name + "_" + SanitiseTimestamp(ts) != name + "_error_" + SanitiseTimestamp(failureTs)
  {
    var completed := name + "_" + SanitiseTimestamp(ts);
    var failed := name + "_error_" + SanitiseTimestamp(failureTs);
    assert completed[|name| + 1] == ts[0];
    assert failed[|name| + 1] == 'e';
  }

  /** Equal completed-document ids come from the same blob name and the same
      sanitised timestamp, when the timestamps have one width or hold no '_'
      (as `isoformat()` timestamps of either width do not). */
  lemma {:induction false} CompletedIdDeterminesName(name1: string, ts1: string, name2: string, ts2: string)
    requires |ts1| == |ts2| || ('_' !in ts1 && '_' !in ts2)
    requires name1 + "_" + SanitiseTimestamp(ts1) == name2 + "_" + SanitiseTimestamp(ts2)
    ensures name1 == name2
    ensures SanitiseTimestamp(ts1) == SanitiseTimestamp(ts2)
  {
    var s1 := SanitiseTimestamp(ts1);
    var s2 := SanitiseTimestamp(ts2);
    var id := name1 + "_" + s1;
    if |ts1| == |ts2| {
      assert |name1| == |name2|;
      assert name1 == id[..|name1|];
      assert name2 == id[..|name2|];
      assert s1 == id[|name1| + 1..];
    } else {
      assert '_' !in s1 by {
        forall i | 0 <= i < |s1| ensures s1[i] != '_' {
          assert ts1[i] != '_';
        }
      }
      assert '_' !in s2 by {
        forall i | 0 <= i < |s2| ensures s2[i] != '_' {
          assert ts2[i] != '_';
        }
      }
      SchemaKeyInjective(name1, s1, name2, s2);
    }
  }
}
