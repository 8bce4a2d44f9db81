/** The client of the Content Understanding service: its configuration, the
    schema registrations it caches, the analyze requests it builds, and the
    MIME type it infers from a file name. The HTTP exchange itself is outside
    the model: each operation is given the service's response and returns the
    request it sends. */
module ContentUnderstanding {
  import opened Wrappers
  import opened Text
  import opened JsonValue
  import BlobProcessing

  const EndpointVariable: string := "AI_CONTENT_UNDERSTANDING_ENDPOINT"
  const KeyVariable: string := "AI_CONTENT_UNDERSTANDING_KEY"
  const RegionVariable: string := "AI_CONTENT_UNDERSTANDING_REGION"

  const ApiVersion: string := "2024-11-15-preview"
  const OctetStream: string := "application/octet-stream"
  const MissingSettingsMessage: string :=
    "AI_CONTENT_UNDERSTANDING_ENDPOINT and AI_CONTENT_UNDERSTANDING_KEY must be set"

  /** `os.environ.get(name, "")`. */
  function Setting(env: map<string, string>, name: string): string {
    if name in env then env[name] else ""
  }

  /** The `ValueError` the constructor raises. */
  datatype ConfigError = ConfigError(message: string)

  datatype Settings = Settings(endpoint: string, apiKey: string, region: string)

  /** The configuration the constructor reads: the endpoint without trailing
      '/', the key and the region; it fails when the endpoint or the key is
      empty, the endpoint being checked after stripping. */
  function ReadSettings(env: map<string, string>): (r: Result<Settings, ConfigError>)
    ensures r.Success? <==> RStrip(Setting(env, EndpointVariable), '/') != [] && Setting(env, KeyVariable) != []
    ensures r.Failure? ==> r.error == ConfigError(MissingSettingsMessage)
    ensures r.Success? ==>
      && r.value.endpoint == RStrip(Setting(env, EndpointVariable), '/')
      && StartsWith(Setting(env, EndpointVariable), r.value.endpoint)
      && r.value.endpoint != [] && r.value.endpoint[|r.value.endpoint| - 1] != '/'
      && r.value.apiKey == Setting(env, KeyVariable)
      && r.value.region == Setting(env, RegionVariable)
  {
    var endpoint := RStrip(Setting(env, EndpointVariable), '/');
    var apiKey := Setting(env, KeyVariable);
    if endpoint == [] || apiKey == [] then Failure(ConfigError(MissingSettingsMessage))
    else Success(Settings(endpoint, apiKey, Setting(env, RegionVariable)))
  }

  /** Trailing slashes on the configured endpoint make no difference. */
  lemma {:induction false} TrailingSlashesIgnored(endpoint: string, slashes: string)
    requires forall i :: 0 <= i < |slashes| ==> slashes[i] == '/'
    ensures RStrip(endpoint + slashes, '/') == RStrip(endpoint, '/')
    decreases |slashes|
  {
    if slashes != [] {
      var shorter := slashes[..|slashes| - 1];
      var whole := endpoint + slashes;
      assert whole[|whole| - 1] == slashes[|slashes| - 1] == '/';
      assert whole[..|whole| - 1] == endpoint + shorter;
      assert RStrip(whole, '/') == RStrip(endpoint + shorter, '/');
      TrailingSlashesIgnored(endpoint, shorter);
    } else {
      assert endpoint + slashes == endpoint;
    }
  }

  /** The extension-to-MIME table of `_detect_content_type`. */
  const ContentTypes: map<string, string> := map[
    "pdf" := "application/pdf",
    "doc" := "application/msword",
    "docx" := "application/vnd.openxmlformats-officedocument.wordprocessingml.document",
    "xls" := "application/vnd.ms-excel",
    "xlsx" := "application/vnd.openxmlformats-officedocument.spreadsheetml.sheet",
    "ppt" := "application/vnd.ms-powerpoint",
    "pptx" := "application/vnd.openxmlformats-officedocument.presentationml.presentation",
    "txt" := "text/plain",
    "csv" := "text/csv",
    "json" := "application/json",
    "xml" := "application/xml",
    "html" := "text/html",
    "htm" := "text/html",
    "jpg" := "image/jpeg",
    "jpeg" := "image/jpeg",
    "png" := "image/png",
    "gif" := "image/gif",
    "bmp" := "image/bmp",
    "tiff" := "image/tiff",
    "tif" := "image/tiff"
  ]

  /** The extension `_detect_content_type` looks up: the text after the last
      '.' of the lower-cased name, or "" for a name without '.'. */
  function Extension(filename: string): (ext: string)
    ensures '.' !in filename ==> ext == ""
    ensures '.' !in ext
    ensures '.' in filename ==> EndsWith(Lower(filename), "." + ext)
  {
    if '.' in filename then
      var lower := Lower(filename);
      assert '.' in lower by {
        var i :| 0 <= i < |filename| && filename[i] == '.';
        assert lower[i] == '.';
      }
      var ext := AfterLast(lower, '.');
      assert lower == lower[..|lower| - |ext| - 1] + "." + ext;
      ext
    else
      ""
  }

  /** `_detect_content_type`: the MIME type registered for the extension,
      `application/octet-stream` for any other. */
  function DetectContentType(filename: string): (mime: string)
    ensures Extension(filename) in ContentTypes ==> mime == ContentTypes[Extension(filename)]
    ensures mime == OctetStream <==> Extension(filename) !in ContentTypes
  {
    if Extension(filename) in ContentTypes then ContentTypes[Extension(filename)] else OctetStream
  }

  /** A name ending in `.{ext}`, for an extension of the table in any case, is
      given that extension's type. */
  lemma DetectBySuffix(stem: string, ext: string)
    requires '.' !in ext && Lower(ext) in ContentTypes
    ensures DetectContentType(stem + "." + ext) == ContentTypes[Lower(ext)]
  {
    var filename := stem + "." + ext;
    assert filename == (stem + ".") + ext;
    LowerAppend(stem + ".", ext);
    LowerAppend(stem, ".");
    assert Lower(filename) == Lower(stem) + ['.'] + Lower(ext);
    assert '.' !in Lower(ext) by {
      forall i | 0 <= i < |ext| ensures Lower(ext)[i] != '.' {
        assert ext[i] != '.';
      }
    }
    SplitConcat(Lower(stem), Lower(ext), '.');
    JoinSplit(Lower(ext), '.');
  }

  /** Both spellings of the JPEG extension are given the JPEG type. */
  lemma JpegSpellings(filename: string)
    requires Extension(filename) == "jpg" || Extension(filename) == "jpeg"
    ensures DetectContentType(filename) == "image/jpeg"
  {
  }

  /** Both spellings of the HTML extension are given the HTML type. */
  lemma HtmlSpellings(filename: string)
    requires Extension(filename) == "htm" || Extension(filename) == "html"
    ensures DetectContentType(filename) == "text/html"
  {
  }

  /** Both spellings of the TIFF extension are given the TIFF type. */
  lemma TiffSpellings(filename: string)
    requires Extension(filename) == "tif" || Extension(filename) == "tiff"
    ensures DetectContentType(filename) == "image/tiff"
  {
  }

  /** The type depends on the name only up to the case of its letters. */
  lemma DetectIgnoresCase(filename: string)
    ensures DetectContentType(Lower(filename)) == DetectContentType(filename)
  {
    LowerIdempotent(filename);
    if '.' in filename {
      assert '.' in Lower(filename) by {
        var i :| 0 <= i < |filename| && filename[i] == '.';
        assert Lower(filename)[i] == '.';
      }
    } else {
      assert '.' !in Lower(filename) by {
        forall i | 0 <= i < |filename| ensures Lower(filename)[i] != '.' {
          assert filename[i] != '.';
        }
      }
    }
  }

  /** For a name with a '.', the extension looked up here is the
      `fileExtension` the blob handler stores (one lower-cases before
      splitting, the other after). */
  lemma ExtensionAgreesWithBlobMetadata(filename: string)
    requires '.' in filename
    ensures Extension(filename) == BlobProcessing.FileExtension(filename)
  {
    LowerAfterLast(filename, '.');
  }

  /** A `requests.exceptions.RequestException`, re-raised to the caller. */
  datatype RequestError = RequestError(message: string)

  /** A POST to the service: its URL, the `Ocp-Apim-Subscription-Key` header,
      the `api-version` parameter and the JSON body. */
  datatype HttpRequest = HttpRequest(url: string, subscriptionKey: string, apiVersion: string, body: Json)

  /** The cache key `register_schema` stores a registration under:
      `f"{schema.get('name')}_{schema.get('version', '1.0')}"`. */
  function RegistrationKey(schema: map<string, Json>): string {
    SchemaKey(PyStr(GetOr(schema, "name", JNull)), PyStr(GetOr(schema, "version", JStr("1.0"))))
  }

  /** A schema with string name and version is cached under the key
      `get_schema_info` computes for them; without a version it is cached as
      version "1.0". */
  lemma RegistrationKeyOf(schema: map<string, Json>, name: string, version: string)
    requires GetOr(schema, "name", JNull) == JStr(name)
    requires GetOr(schema, "version", JStr("1.0")) == JStr(version)
    ensures RegistrationKey(schema) == SchemaKey(name, version)
    ensures "version" !in schema ==> version == "1.0"
    ensures "name" in schema
  {
  }

  /** A schema without a name is cached under the name "None", the text
      `str(None)` gives. */
  lemma UnnamedRegistrationKey(schema: map<string, Json>)
    requires "name" !in schema
    ensures RegistrationKey(schema) == SchemaKey("None", PyStr(GetOr(schema, "version", JStr("1.0"))))
  {
  }

  /** The body of an analyze request: the schema id and one document, plus the
      schema version when one is given and non-empty. */
  function AnalyzePayload(schemaId: string, schemaVersion: Option<string>, document: Json): (payload: map<string, Json>)
    ensures "schemaId" in payload && "documents" in payload
    ensures payload["schemaId"] == JStr(schemaId) && payload["documents"] == JArr([document])
    ensures "schemaVersion" in payload <==> schemaVersion.Some? && schemaVersion.value != []
    ensures "schemaVersion" in payload ==> payload["schemaVersion"] == JStr(schemaVersion.value)
    ensures payload.Keys <= {"schemaId", "documents", "schemaVersion"}
  {
    var base := map["schemaId" := JStr(schemaId), "documents" := JArr([document])];
    if schemaVersion.Some? && schemaVersion.value != [] then base["schemaVersion" := JStr(schemaVersion.value)]
    else base
  }

  class AIContentUnderstandingClient {
    const endpoint: string
    const apiKey: string
    const region: string
    const apiVersion: string
    /** `_schema_cache`: registration responses by `{name}_{version}`. */
    var schemaCache: map<string, Json>

    constructor (settings: Settings)
      requires settings.endpoint != [] && settings.apiKey != []
      ensures endpoint == settings.endpoint && apiKey == settings.apiKey && region == settings.region
      ensures apiVersion == ApiVersion
      ensures schemaCache == map[]
    {
      endpoint := settings.endpoint;
      apiKey := settings.apiKey;
      region := settings.region;
      apiVersion := ApiVersion;
      schemaCache := map[];
    }

    /** `AIContentUnderstandingClient()`: a client configured from the
        environment, or the `ValueError` when endpoint or key is missing. */
    static method Create(env: map<string, string>) returns (r: Result<AIContentUnderstandingClient, ConfigError>)
      ensures r.Failure? <==> ReadSettings(env).Failure?
      ensures r.Failure? ==> r.error == ConfigError(MissingSettingsMessage)
      ensures r.Success? ==>
        && fresh(r.value)
        && r.value.endpoint == ReadSettings(env).value.endpoint
        && r.value.apiKey == ReadSettings(env).value.apiKey
        && r.value.region == ReadSettings(env).value.region
        && r.value.apiVersion == ApiVersion
        && r.value.schemaCache == map[]
    {
      var settings := ReadSettings(env);
      if settings.Failure? {
        return Failure(settings.error);
      }
      var client := new AIContentUnderstandingClient(settings.value);
      return Success(client);
    }

    /** `get_schema_info`: the cached registration of a name and version. */
    function GetSchemaInfo(name: string, version: string): (r: Option<Json>)
      reads this
      ensures r.Some? <==> SchemaKey(name, version) in schemaCache
      ensures r.Some? ==> r.value == schemaCache[SchemaKey(name, version)]
    {
      var key := SchemaKey(name, version);
      if key in schemaCache then Some(schemaCache[key]) else None
    }

    /** `register_schema`: the request posting the schema, and the service's
        response, which a successful call also caches; a failed request
        leaves the cache as it was. */
    method RegisterSchema(schema: map<string, Json>, response: Result<Json, RequestError>)
      returns (request: HttpRequest, r: Result<Json, RequestError>)
      modifies this`schemaCache
      ensures request == HttpRequest(endpoint + "/authoring/schemas", apiKey, apiVersion, JObj(schema))
      ensures r == response
      ensures response.Success? ==> schemaCache == old(schemaCache)[RegistrationKey(schema) := response.value]
      ensures response.Failure? ==> schemaCache == old(schemaCache)
      ensures forall name, version ::
        response.Success? && GetOr(schema, "name", JNull) == JStr(name)
        && GetOr(schema, "version", JStr("1.0")) == JStr(version) ==>
        GetSchemaInfo(name, version) == Some(response.value)
    {
      request := HttpRequest(endpoint + "/authoring/schemas", apiKey, apiVersion, JObj(schema));
      r := response;
      if response.Success? {
        schemaCache := schemaCache[RegistrationKey(schema) := response.value];
      }
    }

    /** `analyze_document`: the request analysing one document, whose id is
        the file name and the `%Y%m%d_%H%M%S` stamp; the content type is
        detected from the name only when none is passed (an empty one is kept),
        and the schema version is sent only when non-empty. `base64` stands for
        the Base64 encoding of the content. */
    method AnalyzeDocument(
      content: seq<Byte>,
      filename: string,
      schemaId: string,
      schemaVersion: Option<string>,
      contentType: Option<string>,
      stamp: string,
      base64: seq<Byte> -> string,
      response: Result<Json, RequestError>)
      returns (request: HttpRequest, r: Result<Json, RequestError>)
      ensures request.url == endpoint + "/analyze"
      ensures request.subscriptionKey == apiKey && request.apiVersion == apiVersion
      ensures var mime := if contentType.Some? then contentType.value else DetectContentType(filename);
        request.body == JObj(AnalyzePayload(schemaId, schemaVersion, JObj(map[
          "documentId" := JStr(filename + "_" + stamp),
          "contentType" := JStr(mime),
          "content" := JStr(base64(content))])))
      ensures r == response
    {
      var mime: string;
      if contentType.None? {
        mime := DetectContentType(filename);
      } else {
        mime := contentType.value;
      }
      var document := map[
        "documentId" := JStr(filename + "_" + stamp),
        "contentType" := JStr(mime),
        "content" := JStr(base64(content))];
      var payload := map["schemaId" := JStr(schemaId), "documents" := JArr([JObj(document)])];
      if schemaVersion.Some? && schemaVersion.value != [] {
        payload := payload["schemaVersion" := JStr(schemaVersion.value)];
      }
      request := HttpRequest(endpoint + "/analyze", apiKey, apiVersion, JObj(payload));
      r := response;
    }
  }
}
