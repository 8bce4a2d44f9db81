/** The people-counting heuristic of the image analysis script: five regular
    expressions searched in a lower-cased image description, then a list of
    fixed phrases; the choice of the description in the analysis response;
    and the classification of the poll responses.

    Each regular expression is modelled as a scanner in the manner of
    `re.findall`: at every position it tries the pattern, and after a match
    it resumes at the match's end, otherwise one position further on. A
    repetition (`\w+`, `\s+`, `\s*`, `\d+`) takes the whole run of its class,
    since a shorter run leaves a character of that class which the next
    element of the pattern (a space, a word character or a letter) cannot
    match; an alternation takes the one alternative present, since none of
    the alternatives is a prefix of another. */
module PeopleCounter {
  import opened Wrappers
  import opened Text
  import opened JsonValue

  /** The nouns of the first three patterns, in their order. */
  const Nouns: seq<string> := ["people", "persons", "individuals", "men", "women", "adults", "children"]
  /** The nouns of the last two patterns. */
  const PeopleNouns: seq<string> := ["people", "persons"]
  const GroupPrefixes: seq<string> := ["group of", "crowd of"]
  const Verbs: seq<string> := ["shows", "depicts", "contains", "has", "features"]
  const Activities: seq<string> := ["sitting", "standing", "walking", "gathered"]

  const NumberWords: map<string, nat> := map[
    "zero" := 0, "one" := 1, "two" := 2, "three" := 3, "four" := 4, "five" := 5,
    "six" := 6, "seven" := 7, "eight" := 8, "nine" := 9, "ten" := 10,
    "eleven" := 11, "twelve" := 12, "thirteen" := 13, "fourteen" := 14, "fifteen" := 15,
    "sixteen" := 16, "seventeen" := 17, "eighteen" := 18, "nineteen" := 19, "twenty" := 20
  ]

  /** The five patterns, in the order they are tried:
      `(?:group of|crowd of)?\s*(\w+)\s+(?:people|…|children)`,
      `(\w+)\s+(?:people|…|children)`, `(\d+)\s+(?:people|…|children)`,
      `(?:shows|depicts|contains|has|features)\s+(\w+)\s+(?:people|persons)` and
      `(\w+)\s+(?:people|persons)\s+(?:sitting|standing|walking|gathered)`. */
  datatype Pattern =
    | GroupPrefixed
    | WordNoun
    | DigitsNoun
    | VerbWordPeople
    | WordPeopleActivity

  const Patterns: seq<Pattern> := [GroupPrefixed, WordNoun, DigitsNoun, VerbWordPeople, WordPeopleActivity]

  datatype CharClass = WordClass | SpaceClass | DigitClass

  /** `\w`, `\s` and `\d`. */
  predicate InClass(c: char, cls: CharClass) {
    match cls
    case WordClass => IsWordChar(c)
    case SpaceClass => IsSpace(c)
    case DigitClass => IsDigit(c)
  }

  /** The end of the run of characters of a class that starts at `p`. */
  function RunEnd(t: string, p: nat, cls: CharClass): (e: nat)
    requires p <= |t|
    ensures p <= e <= |t|
    ensures forall i :: p <= i < e ==> InClass(t[i], cls)
    ensures e == |t| || !InClass(t[e], cls)
    decreases |t| - p
  {
    if p == |t| || !InClass(t[p], cls) then p else RunEnd(t, p + 1, cls)
  }

  predicate StartsAt(t: string, p: nat, w: string) {
    p + |w| <= |t| && t[p..p + |w|] == w
  }

  /** An alternation of literals at `p`: the end of the first alternative
      found there. */
  function AltAt(t: string, p: nat, alts: seq<string>): (r: Option<nat>)
    ensures r.None? <==> forall k :: 0 <= k < |alts| ==> !StartsAt(t, p, alts[k])
    ensures r.Some? ==> exists k :: 0 <= k < |alts| && StartsAt(t, p, alts[k]) && r.value == p + |alts[k]|
    ensures r.Some? ==> r.value <= |t|
    decreases |alts|
  {
    if alts == [] then None
    else if StartsAt(t, p, alts[0]) then Some(p + |alts[0]|)
    else
      var r := AltAt(t, p, alts[1..]);
      assert forall k :: 1 <= k < |alts| ==> alts[k] == alts[1..][k - 1];
      r
  }

  /** `(C+)\s+(?:alts)` at `q`: the captured run and the end of the match. */
  function RunThenAlt(t: string, q: nat, cls: CharClass, alts: seq<string>): (r: Option<(string, nat)>)
    requires q <= |t|
    ensures r.Some? ==> q < r.value.1 <= |t| && r.value.0 == t[q..RunEnd(t, q, cls)] && r.value.0 != []
  {
    var e := RunEnd(t, q, cls);
    if e == q then None
    else
      var f := RunEnd(t, e, SpaceClass);
      if f == e then None
      else
        match AltAt(t, f, alts)
        case None => None
        case Some(g) => Some((t[q..e], g))
  }

  /** One attempt of a pattern at position `p`: the captured group and the
      end of the match. */
  function MatchAt(pat: Pattern, t: string, p: nat): (r: Option<(string, nat)>)
    requires p <= |t|
    ensures r.Some? ==> p < r.value.1 <= |t|
  {
    match pat
    case GroupPrefixed =>
      var withPrefix :=
        match AltAt(t, p, GroupPrefixes)
        case Some(q) => RunThenAlt(t, RunEnd(t, q, SpaceClass), WordClass, Nouns)
        case None => None;
      if withPrefix.Some? then withPrefix
      else RunThenAlt(t, RunEnd(t, p, SpaceClass), WordClass, Nouns)
    case WordNoun => RunThenAlt(t, p, WordClass, Nouns)
    case DigitsNoun => RunThenAlt(t, p, DigitClass, Nouns)
    case VerbWordPeople =>
      (match AltAt(t, p, Verbs)
       case None => None
       case Some(q) =>
         var s := RunEnd(t, q, SpaceClass);
         if s == q then None else RunThenAlt(t, s, WordClass, PeopleNouns))
    case WordPeopleActivity =>
      match RunThenAlt(t, p, WordClass, PeopleNouns)
      case None => None
      case Some((word, g)) =>
        var h := RunEnd(t, g, SpaceClass);
        if h == g then None
        else
          match AltAt(t, h, Activities)
          case None => None
          case Some(k) => Some((word, k))
  }

  /** The outcome of trying a pattern at each position of `t`. */
  function MatchTable(pat: Pattern, t: string): (table: seq<Option<(string, nat)>>)
    ensures |table| == |t| && ValidTable(table)
    ensures forall a :: 0 <= a < |t| ==> table[a] == MatchAt(pat, t, a)
  {
    seq(|t|, a requires 0 <= a < |t| => MatchAt(pat, t, a))
  }

  /** Every match found at a position ends after it and within the text. */
  predicate ValidTable(table: seq<Option<(string, nat)>>) {
    forall a :: 0 <= a < |table| && table[a].Some? ==> a < table[a].value.1 <= |table|
  }

  /** The scan of `re.findall` from position `p`: a match contributes its
      group and the scan resumes at its end; otherwise the scan moves one
      position on. */
  function Scan(table: seq<Option<(string, nat)>>, p: nat): (groups: seq<string>)
    requires ValidTable(table) && p <= |table|
    decreases |table| - p
  {
    if p == |table| then []
    else
      match table[p]
      case Some((group, end)) => [group] + Scan(table, end)
      case None => Scan(table, p + 1)
  }

  /** `re.findall(pattern, t[p:])` for a pattern with one group: the captured
      groups of the successive non-overlapping matches. */
  function FindAll(pat: Pattern, t: string, p: nat): (groups: seq<string>)
    requires p <= |t|
  {
    Scan(MatchTable(pat, t), p)
  }

  /** A captured group that yields a count: all digits (`isdigit`), or one of
      the number words. */
  predicate IsNumeric(w: string) {
    (w != [] && AllDigits(w)) || w in NumberWords
  }

  function NumericValue(w: string): nat
    requires IsNumeric(w)
  {
    if w != [] && AllDigits(w) then DecimalValue(w) else NumberWords[w]
  }

  /** The value of the first numeric group; the others are skipped. */
  function FirstNumber(groups: seq<string>): (r: Option<nat>)
    ensures r.None? <==> forall i :: 0 <= i < |groups| ==> !IsNumeric(groups[i])
    ensures r.Some? ==> exists i :: (
      && 0 <= i < |groups| && IsNumeric(groups[i])
      && r.value == NumericValue(groups[i])
      && forall j :: 0 <= j < i ==> !IsNumeric(groups[j]))
  {
    if groups == [] then None
    else if IsNumeric(groups[0]) then Some(NumericValue(groups[0]))
    else
      var r := FirstNumber(groups[1..]);
      assert forall i :: 1 <= i < |groups| ==> groups[i] == groups[1..][i - 1];
      assert r.Some? ==> exists i :: (
        && 0 <= i < |groups| && IsNumeric(groups[i])
        && r.value == NumericValue(groups[i])
        && forall j :: 0 <= j < i ==> !IsNumeric(groups[j]))
      by {
        if r.Some? {
          var i :| 0 <= i < |groups[1..]| && IsNumeric(groups[1..][i])
            && r.value == NumericValue(groups[1..][i])
            && forall j :: 0 <= j < i ==> !IsNumeric(groups[1..][j]);
          assert IsNumeric(groups[i + 1]) && forall j :: 0 <= j < i + 1 ==> !IsNumeric(groups[j]);
        }
      }
      r
  }

  /** What one pattern contributes: the first numeric group among its
      matches in `t`. */
  function PatternResult(pat: Pattern, t: string): Option<nat> {
    FirstNumber(FindAll(pat, t, 0))
  }

  /** The first `Some` among the outcomes of the items, in their order. */
  function FirstSome<X>(xs: seq<X>, f: X -> Option<nat>): (r: Option<nat>)
    ensures r.None? <==> forall k :: 0 <= k < |xs| ==> f(xs[k]).None?
    ensures r.Some? ==> exists k :: (
      && 0 <= k < |xs| && r == f(xs[k])
      && forall j :: 0 <= j < k ==> f(xs[j]).None?)
  {
    if xs == [] then None
    else if f(xs[0]).Some? then f(xs[0])
    else
      var r := FirstSome(xs[1..], f);
      FirstSomeStep(xs, f, r);
      r
  }

  /** The first `Some` among the outcomes of the items after the first,
      when the first has none, is the first among all of them. */
  lemma FirstSomeStep<X>(xs: seq<X>, f: X -> Option<nat>, r: Option<nat>)
    requires xs != [] && f(xs[0]).None?
    requires r.None? <==> forall k :: 0 <= k < |xs| - 1 ==> f(xs[1..][k]).None?
    requires r.Some? ==> exists k :: (
      && 0 <= k < |xs| - 1 && r == f(xs[1..][k])
      && forall j :: 0 <= j < k ==> f(xs[1..][j]).None?)
    ensures r.None? <==> forall k :: 0 <= k < |xs| ==> f(xs[k]).None?
    ensures r.Some? ==> exists k :: (
      && 0 <= k < |xs| && r == f(xs[k])
      && forall j :: 0 <= j < k ==> f(xs[j]).None?)
  {
    assert forall k :: 1 <= k < |xs| ==> xs[k] == xs[1..][k - 1];
    if r.Some? {
      var k :| 0 <= k < |xs| - 1 && r == f(xs[1..][k])
        && forall j :: 0 <= j < k ==> f(xs[1..][j]).None?;
      assert forall j :: 0 <= j < k + 1 ==> f(xs[j]).None?;
    }
  }

  /** The nested loop over the patterns and their matches: the first numeric
      group of the first pattern that has one. */
  function PatternNumber(t: string, pats: seq<Pattern>): (r: Option<nat>)
    ensures r.None? <==> forall k :: 0 <= k < |pats| ==> PatternResult(pats[k], t).None?
    ensures r.Some? ==> exists k :: (
      && 0 <= k < |pats| && r == PatternResult(pats[k], t)
      && forall j :: 0 <= j < k ==> PatternResult(pats[j], t).None?)
  {
    FirstSome(pats, pat => PatternResult(pat, t))
  }

  /** The fixed phrases tried when no pattern yields a count, in their order. */
  function PhraseEstimate(t: string): (n: nat)
    ensures n in {0, 2, 3, 4, 5, 10}
    ensures Contains(t, "couple") ==> n == 2
    ensures n == 0 <==>
      !Contains(t, "couple") && !Contains(t, "trio") && !Contains(t, "three people")
      && !Contains(t, "quartet") && !Contains(t, "four people") && !Contains(t, "crowd")
      && !Contains(t, "many people") && !Contains(t, "few people") && !Contains(t, "several people")
  {
    if Contains(t, "couple") then 2
    else if Contains(t, "trio") || Contains(t, "three people") then 3
    else if Contains(t, "quartet") || Contains(t, "four people") then 4
    else if Contains(t, "crowd") || Contains(t, "many people") then 10
    else if Contains(t, "few people") then 3
    else if Contains(t, "several people") then 5
    else 0
  }

  /** `_extract_people_count`. */
  function ExtractPeopleCount(text: string): (n: nat)
    ensures PatternNumber(Lower(text), Patterns).Some? ==> n == PatternNumber(Lower(text), Patterns).value
    ensures PatternNumber(Lower(text), Patterns).None? ==> n == PhraseEstimate(Lower(text))
  {
    var t := Lower(text);
    match PatternNumber(t, Patterns)
    case Some(n) => n
    case None => PhraseEstimate(t)
  }

  /** The description chosen from the first content item: the `valueString`
      of `fields.Summary` (default ""), else the `markdown`, else "". Python's
      `in`, indexing and `.get` decide which exception a malformed item
      raises. */
  function SelectDescription(content: Json): (r: Result<Json, PyError>)
    ensures (content.JObj? && "fields" in content.fields && content.fields["fields"].JObj?
      && "Summary" in content.fields["fields"].fields
      && content.fields["fields"].fields["Summary"].JObj?) ==>
      r == Success(GetOr(content.fields["fields"].fields["Summary"].fields, "valueString", JStr("")))
    ensures (content.JObj?
      && ("fields" !in content.fields
          || (content.fields["fields"].JObj? && "Summary" !in content.fields["fields"].fields))) ==>
      r == Success(GetOr(content.fields, "markdown", JStr("")))
  {
    var hasFields :- PyIn("fields", content);
    if hasFields then
      var fields :- PyIndex(content, "fields");
      var hasSummary :- PyIn("Summary", fields);
      if hasSummary then
        var summary :- PyIndex(fields, "Summary");
        PyGet(summary, "valueString", JStr(""))
      else
        MarkdownDescription(content)
    else
      MarkdownDescription(content)
  }

  /** The `markdown` of a content item, or "" without one. */
  function MarkdownDescription(content: Json): (r: Result<Json, PyError>)
    ensures content.JObj? ==> r == Success(GetOr(content.fields, "markdown", JStr("")))
  {
    var hasMarkdown :- PyIn("markdown", content);
    if hasMarkdown then PyIndex(content, "markdown") else Success(JStr(""))
  }

  /** The dictionary `analyze_image_for_people` returns. */
  datatype PeopleReport = PeopleReport(peopleCounts: nat, description: Json, fullResults: Json)

  /** `results['result']['contents']` exists. */
  function HasContents(results: Json): Result<bool, PyError> {
    var hasResult :- PyIn("result", results);
    if hasResult then
      var result :- PyIndex(results, "result");
      PyIn("contents", result)
    else Success(false)
  }

  /** The report for a description taken from the first content item; a
      description that is not a string has no `lower`. */
  function ReportFor(results: Json): Result<PeopleReport, PyError> {
    var result :- PyIndex(results, "result");
    var contents :- PyIndex(result, "contents");
    var content :- PyFirst(contents);
    var description :- SelectDescription(content);
    if description.JStr? then Success(PeopleReport(ExtractPeopleCount(description.s), description, results))
    else Failure(AttributeError)
  }

  /** `analyze_image_for_people` as written, given the analysis results:
      `description` is bound only on the path through the contents, so
      results without them raise `UnboundLocalError` at the `return`. */
  function AnalyzeImageForPeople(results: Json): (r: Result<PeopleReport, PyError>)
    ensures HasContents(results) == Success(false) ==> r == Failure(UnboundLocalError)
    ensures HasContents(results) == Success(true) ==> r == ReportFor(results)
    ensures r.Success? ==>
      && r.value.fullResults == results && r.value.description.JStr?
      && r.value.peopleCounts == ExtractPeopleCount(r.value.description.s)
  {
    var proceed :- HasContents(results);
    if proceed then ReportFor(results) else Failure(UnboundLocalError)
  }

  /** An empty description counts no one. */
  lemma EmptyTextCountsZero()
    ensures ExtractPeopleCount("") == 0
  {
    assert Lower("") == "";
    forall pat: Pattern ensures PatternResult(pat, "") == None {
      assert FindAll(pat, "", 0) == [];
    }
  }

  /** `analyze_image_for_people` with `description` bound to "" before the
      test: results without contents report no people. */
  function AnalyzeImageForPeopleCorrected(results: Json): (r: Result<PeopleReport, PyError>)
    ensures HasContents(results) == Success(false) ==> r == Success(PeopleReport(0, JStr(""), results))
    ensures HasContents(results) == Success(true) ==> r == ReportFor(results)
    ensures r.Success? ==>
      && r.value.fullResults == results && r.value.description.JStr?
      && r.value.peopleCounts == ExtractPeopleCount(r.value.description.s)
  {
    var proceed :- HasContents(results);
    if proceed then ReportFor(results)
    else
      EmptyTextCountsZero();
      Success(PeopleReport(0, JStr(""), results))
  }

  /** One response of the polling loop: its HTTP status and JSON body. */
  datatype PollResponse = PollResponse(statusCode: int, body: Json)

  /** The exceptions `_poll_for_results` raises. */
  datatype PollError =
    | ResultsUnavailable(statusCode: int)
    | AnalysisFailed(result: Json)
    | UnknownStatus(status: Json)
    | BodyError(error: PyError)
    | TimedOut

  /** `result.get('status')`. */
  function StatusOf(body: Json): Result<Json, PyError> {
    PyGet(body, "status", JNull)
  }

  /** A response after which polling goes on: a 200 whose status is
      `Running` or `NotStarted`. */
  predicate Pending(response: PollResponse) {
    response.statusCode == 200
    && (StatusOf(response.body) == Success(JStr("Running")) || StatusOf(response.body) == Success(JStr("NotStarted")))
  }

  /** What a response that ends the polling gives. */
  function Outcome(response: PollResponse): (r: Result<Json, PollError>)
    requires !Pending(response)
    ensures r.Success? <==> response.statusCode == 200 && StatusOf(response.body) == Success(JStr("Succeeded"))
    ensures r.Success? ==> r.value == response.body
    ensures r.Failure? ==> r.error != TimedOut
    ensures response.statusCode == 200 && StatusOf(response.body) == Success(JStr("Failed")) ==>
      r == Failure(AnalysisFailed(response.body))
  {
    if response.statusCode != 200 then Failure(ResultsUnavailable(response.statusCode))
    else
      match StatusOf(response.body)
      case Failure(e) => Failure(BodyError(e))
      case Success(status) =>
        if status == JStr("Succeeded") then Success(response.body)
        else if status == JStr("Failed") then Failure(AnalysisFailed(response.body))
        else Failure(UnknownStatus(status))
  }

  /** `_poll_for_results` over the responses received before the deadline:
      the first response that is not pending decides, and a deadline reached
      while pending is a time-out. */
  method PollForResults(responses: seq<PollResponse>) returns (r: Result<Json, PollError>)
    ensures (forall j :: 0 <= j < |responses| ==> Pending(responses[j])) <==> r == Failure(TimedOut)
    ensures forall i ::
      (0 <= i < |responses| && !Pending(responses[i]) && forall j :: 0 <= j < i ==> Pending(responses[j])) ==>
      r == Outcome(responses[i])
  {
    var i := 0;
    while i < |responses|
      invariant 0 <= i <= |responses|
      invariant forall j :: 0 <= j < i ==> Pending(responses[j])
    {
      var response := responses[i];
      if response.statusCode != 200 {
        return Failure(ResultsUnavailable(response.statusCode));
      }
      var status := StatusOf(response.body);
      if status.Failure? {
        return Failure(BodyError(status.error));
      }
      if status.value == JStr("Succeeded") {
        return Success(response.body);
      } else if status.value == JStr("Failed") {
        return Failure(AnalysisFailed(response.body));
      } else if status.value == JStr("Running") || status.value == JStr("NotStarted") {
        i := i + 1;
      } else {
        return Failure(UnknownStatus(status.value));
      }
    }
    return Failure(TimedOut);
  }
}
