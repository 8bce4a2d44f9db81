/** The schema manager: loads extraction schemas from a directory of
    `{name}_{version}.json` files through a cache, lists the schemas that
    directory holds, and checks the structure of a schema. */
module SchemaManagement {
  import opened Wrappers
  import opened Text
  import opened JsonValue

  /** What `json.load` makes of a file: a value, or a `JSONDecodeError`. */
  datatype FileContent = ParsedJson(value: Json) | MalformedJson

  datatype DirEntry = DirEntry(fileName: string, content: FileContent)

  /** The schemas directory at the time of a call: missing, or its entries in
      the order the file system lists them. */
  datatype Directory = Absent | Present(entries: seq<DirEntry>)

  /** The two exceptions `load_schema` logs and re-raises. */
  datatype LoadError = FileNotFound(fileName: string) | InvalidJson(fileName: string)

  const DefaultSchemaName: string := "document_schema"
  const DefaultSchemaVersion: string := "v1"

  /** The file `load_schema` opens for a name and version. */
  function SchemaFileName(name: string, version: string): string {
    SchemaKey(name, version) + ".json"
  }

  /** The content of the first entry with the given name. */
  function Lookup(entries: seq<DirEntry>, fileName: string): (r: Option<FileContent>)
    ensures r.None? <==> forall i :: 0 <= i < |entries| ==> entries[i].fileName != fileName
    ensures r.Some? ==> exists i :: 0 <= i < |entries| && entries[i] == DirEntry(fileName, r.value)
  {
    if entries == [] then None
    else if entries[0].fileName == fileName then Some(entries[0].content)
    else
      var r := Lookup(entries[1..], fileName);
      assert r.Some? ==> exists i :: 1 <= i < |entries| && entries[i] == DirEntry(fileName, r.value) by {
        if r.Some? {
          var i :| 0 <= i < |entries[1..]| && entries[1..][i] == DirEntry(fileName, r.value);
          assert entries[i + 1] == entries[1..][i];
        }
      }
      r
  }

  /** Opening and parsing one file of the directory, as the `try` block of
      `load_schema` does. */
  function ReadSchemaFile(dir: Directory, fileName: string): (r: Result<Json, LoadError>)
    ensures r.Success? ==> dir.Present? && Lookup(dir.entries, fileName) == Some(ParsedJson(r.value))
    ensures r.Failure? ==> r.error.fileName == fileName
    ensures r == Failure(FileNotFound(fileName)) <==> dir.Absent? || Lookup(dir.entries, fileName).None?
  {
    match dir
    case Absent => Failure(FileNotFound(fileName))
    case Present(entries) =>
      match Lookup(entries, fileName)
      case None => Failure(FileNotFound(fileName))
      case Some(ParsedJson(value)) => Success(value)
      case Some(MalformedJson) => Failure(InvalidJson(fileName))
  }

  /** `Path(fileName).stem` for a name that the glob `*.json` matches: the
      name without its `.json` suffix, except that `.json` itself has none. */
  function JsonStem(fileName: string): (stem: string)
    requires EndsWith(fileName, ".json")
    ensures |fileName| > 5 ==> fileName == stem + ".json"
    ensures |fileName| == 5 ==> stem == ".json"
  {
    if |fileName| > 5 then fileName[..|fileName| - 5] else fileName
  }

  /** The `(schema_name, version)` pair read from a file stem: the last
      '_'-separated piece is the version, the pieces before it rejoined with
      '_' the name; a stem without '_' gives nothing. */
  function StemPair(stem: string): (r: Option<(string, string)>)
    ensures r.Some? <==> '_' in stem
    ensures r.Some? ==> SchemaKey(r.value.0, r.value.1) == stem && '_' !in r.value.1
  {
    var parts := Split(stem, '_');
    if |parts| >= 2 then
      var name := Join(parts[..|parts| - 1], '_');
      var version := Last(parts);
      JoinSplit(stem, '_');
      JoinSnoc(parts[..|parts| - 1], version, '_');
      assert parts[..|parts| - 1] + [version] == parts;
      Some((name, version))
    else
      None
  }

  /** The pairs one directory entry contributes to the listing. */
  function EntryPairs(entry: DirEntry): (pairs: seq<(string, string)>)
    ensures |pairs| <= 1
    ensures forall k :: 0 <= k < |pairs| ==>
      entry.fileName == SchemaFileName(pairs[k].0, pairs[k].1) && '_' !in pairs[k].1
  {
    if EndsWith(entry.fileName, ".json") then
      match StemPair(JsonStem(entry.fileName))
      case Some(pair) => [pair]
      case None => []
    else
      []
  }

  /** The listing of `list_available_schemas` for the given entries: every
      pair names a `.json` entry whose stem is `{name}_{version}`, with no '_'
      in the version. */
  function ListedPairs(entries: seq<DirEntry>): (pairs: seq<(string, string)>)
    ensures forall k :: 0 <= k < |pairs| ==> '_' !in pairs[k].1
    ensures forall k :: 0 <= k < |pairs| ==>
      exists i :: 0 <= i < |entries| && entries[i].fileName == SchemaFileName(pairs[k].0, pairs[k].1)
    ensures |pairs| <= |entries|
    decreases |entries|
  {
    if entries == [] then []
    else
      var init := entries[..|entries| - 1];
      var last := entries[|entries| - 1];
      var earlier := ListedPairs(init);
      var pairs := earlier + EntryPairs(last);
      forall k | 0 <= k < |pairs|
        ensures exists i :: 0 <= i < |entries| && entries[i].fileName == SchemaFileName(pairs[k].0, pairs[k].1)
      {
        if k < |earlier| {
          var i :| 0 <= i < |init| && init[i].fileName == SchemaFileName(earlier[k].0, earlier[k].1);
          assert entries[i] == init[i];
        } else {
          assert entries[|entries| - 1] == last;
        }
      }
      pairs
  }

  /** One turn of the loop of `list_available_schemas`: the pair a `.json`
      entry's stem is read as, when it holds a '_'. */
  method ReadEntry(entry: DirEntry) returns (found: seq<(string, string)>)
    ensures found == EntryPairs(entry)
  {
    found := [];
    if EndsWith(entry.fileName, ".json") {
      var pair := StemPair(JsonStem(entry.fileName));
      if pair.Some? {
        found := [pair.value];
      }
    }
  }

  /** The listing of a prefix one entry longer adds that entry's pairs. */
  lemma ListedPairsStep(entries: seq<DirEntry>, i: nat)
    requires i < |entries|
    ensures ListedPairs(entries[..i + 1]) == ListedPairs(entries[..i]) + EntryPairs(entries[i])
  {
    assert entries[..i + 1][..i] == entries[..i];
  }

  /** A stem `{name}_{version}` whose version holds no '_' is read back as
      exactly that name and version. */
  lemma {:induction false} StemPairRoundTrip(name: string, version: string)
    requires '_' !in version
    ensures StemPair(SchemaKey(name, version)) == Some((name, version))
  {
    var stem := SchemaKey(name, version);
    assert stem == name + ['_'] + version;
    SplitConcat(name, version, '_');
    JoinSplit(version, '_');
    var parts := Split(stem, '_');
    assert parts == Split(name, '_') + [version];
    assert parts[..|parts| - 1] == Split(name, '_');
    JoinSplit(name, '_');
  }

  /** Round trip: a file saved under `load_schema`'s naming scheme is listed
      back as the name and version it was saved for. */
  lemma {:induction false} SavedSchemaIsListed(entries: seq<DirEntry>, i: nat, name: string, version: string)
    requires i < |entries| && entries[i].fileName == SchemaFileName(name, version)
    requires '_' !in version
    ensures (name, version) in ListedPairs(entries)
    decreases |entries|
  {
    var init := entries[..|entries| - 1];
    if i == |entries| - 1 {
      var fileName := SchemaFileName(name, version);
      assert EndsWith(fileName, ".json");
      assert JsonStem(fileName) == SchemaKey(name, version);
      StemPairRoundTrip(name, version);
      assert EntryPairs(entries[i]) == [(name, version)];
    } else {
      assert init[i] == entries[i];
      SavedSchemaIsListed(init, i, name, version);
    }
  }

  /** A field is usable when it is an object with a name and a type. */
  predicate IsSchemaField(field: Json) {
    field.JObj? && "name" in field.fields && "type" in field.fields
  }

  /** The structure `validate_schema` accepts: a name, and a list of usable
      fields (possibly empty); further keys do not matter. */
  predicate IsValidSchema(schema: map<string, Json>) {
    && "name" in schema
    && "fields" in schema
    && schema["fields"].JArr?
    && forall i :: 0 <= i < |schema["fields"].items| ==> IsSchemaField(schema["fields"].items[i])
  }

  /** Which message `validate_schema` logs: it passes, or it stops at the first
      defect and names it. */
  datatype Verdict =
    | Passed
    | MissingRequiredKeys
    | FieldsNotAList
    | FieldNotAnObject(index: nat)
    | FieldLacksNameOrType(index: nat)

  class SchemaManager {
    /** The path of the schemas directory; the methods are given its content
        at the time of the call as a `Directory`. */
    const schemasDirectory: string
    /** `_schema_cache`: schemas loaded so far, by `{name}_{version}`. */
    var cache: map<string, Json>

    constructor (schemasDirectory: string)
      ensures this.schemasDirectory == schemasDirectory
      ensures cache == map[]
    {
      this.schemasDirectory := schemasDirectory;
      cache := map[];
    }

    /** `load_schema`: a cached schema is returned without reading the
        directory; otherwise the file is read, and only a successful read is
        added to the cache. `dir` is the content of `schemasDirectory` at the
        time of the call. */
    method LoadSchema(dir: Directory, name: string, version: string) returns (r: Result<Json, LoadError>)
      modifies this
      ensures SchemaKey(name, version) in old(cache) ==>
        r == Success(old(cache)[SchemaKey(name, version)]) && cache == old(cache)
      ensures SchemaKey(name, version) !in old(cache) ==>
        r == ReadSchemaFile(dir, SchemaFileName(name, version))
      ensures SchemaKey(name, version) !in old(cache) && r.Success? ==>
        cache == old(cache)[SchemaKey(name, version) := r.value]
      ensures r.Failure? ==> cache == old(cache)
    {
      var key := SchemaKey(name, version);
      if key in cache {
        return Success(cache[key]);
      }
      r := ReadSchemaFile(dir, SchemaFileName(name, version));
      if r.Success? {
        cache := cache[key := r.value];
      }
    }

    /** `get_default_schema`: version `v1` of `document_schema`, with `dir`
        the content of `schemasDirectory` at the time of the call. */
    method GetDefaultSchema(dir: Directory) returns (r: Result<Json, LoadError>)
      modifies this
      ensures var key := SchemaKey(DefaultSchemaName, DefaultSchemaVersion);
        && (key in old(cache) ==> r == Success(old(cache)[key]) && cache == old(cache))
        && (key !in old(cache) ==> r == ReadSchemaFile(dir, "document_schema_v1.json"))
        && (key !in old(cache) && r.Success? ==> cache == old(cache)[key := r.value])
        && (r.Failure? ==> cache == old(cache))
    {
      assert SchemaFileName(DefaultSchemaName, DefaultSchemaVersion) == "document_schema_v1.json";
      r := LoadSchema(dir, DefaultSchemaName, DefaultSchemaVersion);
    }

    /** `list_available_schemas`: a missing directory lists nothing; otherwise
        each `*.json` entry whose stem holds a '_' contributes its pair, in
        listing order. `dir` is the content of `schemasDirectory` at the time
        of the call. */
    method ListAvailableSchemas(dir: Directory) returns (schemas: seq<(string, string)>)
      ensures dir.Absent? ==> schemas == []
      ensures dir.Present? ==> schemas == ListedPairs(dir.entries)
    {
      schemas := [];
      if dir.Absent? {
        return;
      }
      var entries := dir.entries;
      var i := 0;
      while i < |entries|
        invariant 0 <= i <= |entries|
        invariant schemas == ListedPairs(entries[..i])
      {
        var found := ReadEntry(entries[i]);
        ListedPairsStep(entries, i);
        schemas := schemas + found;
        i := i + 1;
      }
      assert entries[..i] == entries;
    }

    /** `validate_schema`: true exactly for a valid schema; the verdict tells
        which check failed, and for a field, that every earlier field passed. */
    method ValidateSchema(schema: map<string, Json>) returns (ok: bool, verdict: Verdict)
      ensures ok <==> IsValidSchema(schema)
      ensures ok <==> verdict == Passed
      ensures verdict == MissingRequiredKeys <==> "name" !in schema || "fields" !in schema
      ensures verdict == FieldsNotAList <==>
        "name" in schema && "fields" in schema && !schema["fields"].JArr?
      ensures verdict.FieldNotAnObject? || verdict.FieldLacksNameOrType? ==>
        && "name" in schema && "fields" in schema && schema["fields"].JArr?
        && verdict.index < |schema["fields"].items|
        && !IsSchemaField(schema["fields"].items[verdict.index])
        && forall j :: 0 <= j < verdict.index ==> IsSchemaField(schema["fields"].items[j])
      ensures verdict.FieldNotAnObject? ==> !schema["fields"].items[verdict.index].JObj?
      ensures verdict.FieldLacksNameOrType? ==> schema["fields"].items[verdict.index].JObj?
    {
      if !("name" in schema && "fields" in schema) {
        return false, MissingRequiredKeys;
      }
      if !schema["fields"].JArr? {
        return false, FieldsNotAList;
      }
      var fields := schema["fields"].items;
      for i := 0 to |fields|
        invariant forall j :: 0 <= j < i ==> IsSchemaField(fields[j])
      {
        if !fields[i].JObj? {
          return false, FieldNotAnObject(i);
        }
        if !("name" in fields[i].fields && "type" in fields[i].fields) {
          return false, FieldLacksNameOrType(i);
        }
      }
      return true, Passed;
    }
  }
}
