# Serverless information extraction: a verified model of its core

This project models the logic inside the serverless document-extraction
service, written in Dafny:

- **The blob-triggered Function App.** A file lands in the `documents`
  container. The app derives an extraction record from its name and bytes
  (`process_document`) and writes either a *completed* document or an
  *error* document to the `ProcessedDocuments` container.
- **The schema manager.** It loads `{name}_{version}.json` extraction
  schemas through a cache, lists the schemas in its directory and checks a
  schema's structure.
- **The Content Understanding client.** It reads its configuration from the
  environment and caches schema registrations. It builds analyze requests
  and infers a MIME type from a file name.
- **The people counter.** It reads a number of people out of an image
  description, using five regular expressions and then a list of fixed
  phrases. It also picks the description out of the analysis response and
  classifies the responses of the polling loop.

Files:

- `wrappers.dfy`: `Option` and `Result`.
- `text.dfy`: the Python string operations the code uses (`split`, `join`,
  `lower`, `rstrip`, `str.split()`, `in`, `int`).
- `json.dfy`: decoded JSON values, and Python's `in`, `[]`, `.get` and
  `str()` on them, including the exceptions these raise.
- `blob_processing.dfy`: `function_app.py`.
- `schema_manager.dfy`: `utils/schema_manager.py`. Its `SchemaManager` class
  keeps the schema cache as a `map` field.
- `content_understanding.dfy`: `utils/ai_content_understanding.py`. Its
  `AIContentUnderstandingClient` class keeps the registration cache as a
  `map` field.
- `people_counter.dfy`: `people_counter.py`.
- `people_counter_proofs.dfy`: the properties of the counting heuristic.

Effects become parameters:

- The clock readings (`utcnow`) are timestamp strings.
- UTF-8 decoding is a partial function.
- Base64 encoding is a function parameter.
- The environment is a map.
- The schemas directory is a value listing its entries and what `json.load`
  makes of each one.
- Every HTTP exchange is given as the service's response. The method
  returns the request it would send.

Each regular expression of `_extract_people_count` is modelled as the scan
`re.findall` performs:

- The pattern is tried at every position.
- After a match, the scan resumes at the match's end.
- A repetition takes its whole run. For these five patterns no shorter run
  can lead to a match.

The central result is that the fourth pattern
(`(?:shows|depicts|contains|has|features)\s+(\w+)\s+(?:people|persons)`)
never decides a count. Any number it captures is also captured by the
second pattern, which is tried before it.

## Model

| member | source | states |
|---|---|---|
| BlobProcessing.BlobName | function_app.py:32 | The blob name is the text after the last '/' of the path: it holds no '/', ends the path, follows a '/' when the path has one, and is the whole path otherwise. |
| BlobProcessing.FileExtension | function_app.py:100 | A name without '.' gets "unknown"; otherwise the extension holds no '.' and the lower-cased name ends in '.' followed by it. |
| BlobProcessing.ProcessDocument | function_app.py:72-117 | Only names ending in `.txt`, `.csv` or `.json` (in any case) are decoded; others get the "Binary file" text and a decode failure gets the "couldn't be decoded" text. The stored text is a prefix of the full text of length min(full, 10000). The character count is the full length, and it exceeds the stored length exactly when the full text is over 10000. The word count is the number of whitespace-separated words, the size is the byte count, and the timestamp is the clock reading. |
| BlobProcessing.SanitiseTimestamp | function_app.py:40 | The result has the timestamp's length and holds no ':' and no '.'; those characters become '-' and every other character is kept. |
| BlobProcessing.BlobTrigger | function_app.py:27-66 | A successful read gives a completed document with id `{blob name}_{sanitised timestamp}`, the unmodified timestamp and the record's text and metadata. A failed read gives an error document with id `{blob name}_error_{sanitised timestamp}` and the exception message. Both carry the blob name and the blob length. |
| BlobProcessing.CompletedAndErrorIdsDiffer | function_app.py:40-60 | For a timestamp that starts with a digit, a completed document's id never equals an error document's id for the same blob. |
| BlobProcessing.CompletedIdDeterminesName | function_app.py:40 | Equal completed ids come from the same blob name and the same sanitised timestamp, when the two timestamps have one width or hold no '_' (as ISO 8601 timestamps of 19 or 26 characters do not). |
| Text.WordsCountWordStarts | function_app.py:104 | `len(text.split())` is the number of non-whitespace characters that start the text or follow whitespace. |
| Text.SchemaKeyInjective | utils/schema_manager.py:39 | When neither version holds '_', distinct name and version pairs get distinct cache keys `{name}_{version}`. |
| Text.SchemaKeyCollision | utils/schema_manager.py:39 | With a '_' in the version, two pairs share a key: ("a_b", "c") and ("a", "b_c"). |
| SchemaManagement.ReadSchemaFile | utils/schema_manager.py:46-59 | A missing directory or file gives FileNotFound and a malformed file gives InvalidJson, each naming the file. On success the file's parsed content is returned. |
| SchemaManagement.StemPair | utils/schema_manager.py:84-88 | A stem gives a pair exactly when it holds a '_'. The version holds no '_', and name + '_' + version is the stem. |
| SchemaManagement.StemPairRoundTrip | utils/schema_manager.py:84-88 | The stem `{name}_{version}`, with no '_' in the version, is read back as exactly (name, version). |
| SchemaManagement.EntryPairs | utils/schema_manager.py:82-88 | An entry contributes at most one pair, and only when its file is `{name}_{version}.json` with no '_' in the version. |
| SchemaManagement.ListedPairs | utils/schema_manager.py:82-88 | Every listed pair names an entry of the directory called `{name}_{version}.json`, its version holds no '_', and there are no more pairs than entries. |
| SchemaManagement.ReadEntry | utils/schema_manager.py:84-88 | One turn of the listing loop adds exactly the pair of that entry. |
| SchemaManagement.SavedSchemaIsListed | utils/schema_manager.py:82-88 | A file saved under the `{name}_{version}.json` scheme of line 44 is listed back as (name, version) when the version holds no '_'. |
| SchemaManagement.SchemaManager.constructor | utils/schema_manager.py:13-26 | A new manager has the given directory and an empty cache. |
| SchemaManagement.SchemaManager.LoadSchema | utils/schema_manager.py:28-59 | A cache hit returns the cached schema without reading the directory and leaves the cache alone. A miss returns the outcome of reading `{name}_{version}.json`. A successful read adds exactly the key `{name}_{version}`, and a failure leaves the cache unchanged. |
| SchemaManagement.SchemaManager.GetDefaultSchema | utils/schema_manager.py:61-68 | The same as loading `document_schema_v1.json` under the key `document_schema_v1`, with the same cache behaviour. |
| SchemaManagement.SchemaManager.ListAvailableSchemas | utils/schema_manager.py:70-90 | A missing directory lists nothing. Otherwise the loop's list is the pairs of the entries, in listing order. |
| SchemaManagement.SchemaManager.ValidateSchema | utils/schema_manager.py:92-123 | True exactly for a schema with `name` and a `fields` list whose items all are objects with `name` and `type`; an empty list and extra keys pass. The verdict tells which check failed: missing keys, `fields` not a list, or the first bad field (every earlier one is good), either not an object or lacking `name` or `type`. |
| ContentUnderstanding.ReadSettings | utils/ai_content_understanding.py:17-22 | Configuration fails, with the fixed message, exactly when the endpoint without trailing '/' or the key is empty. Otherwise the endpoint is exactly the variable's value with its trailing '/' removed (a non-empty prefix of it not ending in '/'), and the key and region are the variables' values. |
| ContentUnderstanding.TrailingSlashesIgnored | utils/ai_content_understanding.py:17 | Trailing slashes on the endpoint variable make no difference to the stored endpoint. |
| ContentUnderstanding.Extension | utils/ai_content_understanding.py:160 | A name without '.' has the empty extension. Otherwise the extension holds no '.' and the lower-cased name ends in '.' followed by it. |
| ContentUnderstanding.DetectContentType | utils/ai_content_understanding.py:160-185 | An extension of the table gets its MIME type. Every other extension, the empty one included, gets `application/octet-stream`, and only those do. |
| ContentUnderstanding.DetectBySuffix | utils/ai_content_understanding.py:162-185 | A name ending in '.' and one of the 20 extensions, in any case, gets that extension's MIME type. |
| ContentUnderstanding.JpegSpellings | utils/ai_content_understanding.py:176-177 | `jpg` and `jpeg` both give `image/jpeg`. |
| ContentUnderstanding.HtmlSpellings | utils/ai_content_understanding.py:174-175 | `htm` and `html` both give `text/html`. |
| ContentUnderstanding.TiffSpellings | utils/ai_content_understanding.py:181-182 | `tif` and `tiff` both give `image/tiff`. |
| ContentUnderstanding.DetectIgnoresCase | utils/ai_content_understanding.py:160 | The detected type depends on the name only up to the case of its letters. |
| ContentUnderstanding.ExtensionAgreesWithBlobMetadata | utils/ai_content_understanding.py:160 | For a name with a '.', the extension looked up here equals the `fileExtension` the blob handler stores (function_app.py:100), although one lower-cases before splitting and the other after. |
| ContentUnderstanding.RegistrationKeyOf | utils/ai_content_understanding.py:63 | A schema with a string name and version is cached under `{name}_{version}`, the key `get_schema_info` computes. Without a version it is cached as version "1.0". |
| ContentUnderstanding.UnnamedRegistrationKey | utils/ai_content_understanding.py:63 | A schema without a name is cached under the name "None", the text `str(None)` gives. |
| ContentUnderstanding.AnalyzePayload | utils/ai_content_understanding.py:113-125 | The payload has the schema id and a list of exactly the one document. `schemaVersion` is present exactly when a non-empty version is given, and then it holds that version. There are no other keys. |
| ContentUnderstanding.AIContentUnderstandingClient.constructor | utils/ai_content_understanding.py:15-25 | A client from valid settings keeps them, uses API version `2024-11-15-preview` and starts with an empty cache. |
| ContentUnderstanding.AIContentUnderstandingClient.Create | utils/ai_content_understanding.py:15-25 | Construction fails with the `ValueError` message exactly when the settings are missing. Otherwise the new client holds the settings, the API version and an empty cache. |
| ContentUnderstanding.AIContentUnderstandingClient.GetSchemaInfo | utils/ai_content_understanding.py:187-199 | The cached registration under `{name}_{version}`, and nothing when none is cached. |
| ContentUnderstanding.AIContentUnderstandingClient.RegisterSchema | utils/ai_content_understanding.py:27-73 | The request posts the schema to `/authoring/schemas` with the key and API version. A successful response is cached under the schema's key, and afterwards `get_schema_info(name, version)` returns it; every other entry is unchanged. A failed request leaves the cache unchanged and is passed on. |
| ContentUnderstanding.AIContentUnderstandingClient.AnalyzeDocument | utils/ai_content_understanding.py:75-148 | The request goes to `/analyze`, and its one document has id `{filename}_{stamp}`. A supplied content type is used unchanged; the type is detected from the name only when none is passed. The version is sent only when non-empty, and the response is passed on. |
| PeopleCounter.FirstNumber | people_counter.py:75-80 | The value of the first group that is all digits or a number word. Groups before it are skipped, and there is none exactly when no group is numeric. |
| PeopleCounter.PatternNumber | people_counter.py:73-80 | The result of the first pattern, in pattern order, that yields a number, and nothing exactly when no pattern does. |
| PeopleCounter.PhraseEstimate | people_counter.py:83-96 | The fallback is one of 0, 2, 3, 4, 5 and 10. "couple" gives 2, and the result is 0 exactly when none of the phrases occurs. |
| PeopleCounter.ExtractPeopleCount | people_counter.py:52-96 | On the lower-cased text, the first pattern's number decides when there is one, and otherwise the phrase fallback does. |
| PeopleCounter.EmptyTextCountsZero | people_counter.py:52-96 | An empty description counts no one. |
| PeopleCounter.SelectDescription | people_counter.py:35-39 | For a content object, `fields.Summary.valueString` (default "") is preferred. Without `fields` or without `Summary`, the `markdown` is used (default ""). |
| PeopleCounter.MarkdownDescription | people_counter.py:38-39 | The `markdown` of a content object, or "" without one. |
| PeopleCounter.AnalyzeImageForPeople | people_counter.py:16-50 | As written: results without `result.contents` raise `UnboundLocalError`. With contents, the report of the first item is returned; it holds the full results, a string description and that description's count. |
| PeopleCounter.AnalyzeImageForPeopleCorrected | people_counter.py:16-50 | With `description` bound to "" first: results without contents report 0 people and an empty description, and otherwise the same report is returned. |
| PeopleCounter.Outcome | people_counter.py:127-142 | A response that ends polling succeeds exactly for a 200 with status `Succeeded`, and then it returns the body. `Failed` raises with the body, and every other ending is an error other than a time-out. |
| PeopleCounter.PollForResults | people_counter.py:118-144 | The poll times out exactly when every response is pending (200 with `Running` or `NotStarted`). Otherwise the first response that is not pending decides. |
| PeopleCounterProofs.ScanMember | people_counter.py:74 | Every group `re.findall` returns is captured by a match at some position. |
| PeopleCounterProofs.ScanReaches | people_counter.py:74 | When no match that starts before a position reaches past it, the groups found from there end the scan's groups. |
| PeopleCounterProofs.VerbCaptureIsWordCapture | people_counter.py:67-69 | A numeric group the fourth pattern captures is also a group of the second pattern. |
| PeopleCounterProofs.VerbPatternNeverDecides | people_counter.py:65-80 | When the fourth pattern yields a number, the second pattern already yields one. |
| PeopleCounterProofs.VerbPatternRedundant | people_counter.py:65-80 | The count is the same with the fourth pattern removed from the list. |
| PeopleCounterProofs.CountIgnoresCase | people_counter.py:54 | The count depends on the description only up to the case of its letters. |
| PeopleCounterProofs.CountBeforeNoun | people_counter.py:57-80 | A description made of a number (digits or a word from zero to twenty), a space and a people noun is counted as that number. |
| PeopleCounterProofs.MissingContentsRaises | people_counter.py:31-50 | For the results `{}`, the code as written raises `UnboundLocalError`, while the corrected version reports 0 people. |
| PeopleCounterProofs.CorrectionOnlyAffectsMissingContents | people_counter.py:31-50 | The two versions differ exactly on results without `result.contents`, and the correction keeps every successful report. |

## Left out

- The deployment scripts and infrastructure templates are not part of this
  model.
- HTTP calls are outside the model. This covers `requests.post` and `get`,
  the response headers, `raise_for_status` and the 202 check of the
  people counter's `analyze_document`. Each modelled call receives the
  service's response as a parameter.
- `list_schemas` (utils/ai_content_understanding.py:201-233) is left out. It
  is a single GET and does nothing with the answer.
- The people counter's `ContentUnderstandingClient` constructor and its
  `analyze_document` (people_counter.py:8-14, 98-116) are left out. They only
  build headers and URLs and call HTTP.
- PeopleCounter.PollForResults: the wall-clock deadline and `time.sleep`
  are not modelled. The loop runs over the responses received before the
  deadline, and running out of them is the time-out.
- Azure Functions decorators, the Cosmos output binding (`outputDocument.set`)
  and `health_check` are platform plumbing.
- A failure of the output binding itself, caught by the same `except`, is
  not modelled. Only a failure to read the blob leads to the error
  document.
- Logging and `print` are left out.
- File-system access and `json.load` are left out. The schemas directory is
  a value that lists each entry and its parsed content or parse failure, in
  the order `glob` yields them.
- The default schemas directory, derived from `__file__`, is taken as a
  plain string.
- `datetime.utcnow`, UTF-8 decoding and Base64 encoding are parameters.
- Environment variables are read from a map parameter.
- `lower()`, `\w` and `isdigit()` are modelled on ASCII. Other Unicode
  letters and digits are treated as neither letters nor digits. `\s` and
  `str.split()` use Python's full whitespace set.
- JSON numbers are integers; floats are not modelled.
- `str()` of a list or an object renders it only schematically.
- `main` and `test_single_image` are demo drivers and are left out. They read
  the key `people_count`, while the report holds `people_counts`.
- PeopleCounter.PhraseEstimate: the contract does not restate the whole
  priority order of the fallback phrases. It fixes the value for "couple",
  the range of values and the zero case.

## Findings

| source | as written | input that shows it | evidently intended | confidence | as-written member | corrected member |
|---|---|---|---|---|---|---|
| people_counter.py:31-50 | `description` is assigned only inside the branch taken when `result.contents` exists, but the `return` always reads it | analysis results `{}`, or any results without `result.contents`, raise `UnboundLocalError` | report 0 people with an empty description | not executed | PeopleCounter.AnalyzeImageForPeople, PeopleCounterProofs.MissingContentsRaises | PeopleCounter.AnalyzeImageForPeopleCorrected |
