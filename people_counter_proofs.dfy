/** Properties of the people-counting heuristic: how the scanner of
    `re.findall` visits a position, that the fourth pattern can never decide
    the count, that a number before a people noun is read, and that case does
    not matter. */
module PeopleCounterProofs {
  import opened Wrappers
  import opened Text
  import opened JsonValue
  import opened PeopleCounter

  /** Every group a scan returns is captured by a match at some position. */
  lemma {:induction false} ScanMember(table: seq<Option<(string, nat)>>, p: nat, k: nat)
    requires ValidTable(table) && p <= |table| && k < |Scan(table, p)|
    ensures exists a :: p <= a < |table| && table[a].Some? && table[a].value.0 == Scan(table, p)[k]
    decreases |table| - p
  {
    match table[p]
    case Some((group, end)) =>
      if k > 0 {
        ScanMember(table, end, k - 1);
      }
    case None =>
      ScanMember(table, p + 1, k);
  }

  /** When no match starting before `s` reaches past `s`, the scan stops at
      `s`: the groups found from `p` end with those found from `s`. */
  lemma {:induction false} ScanReaches(table: seq<Option<(string, nat)>>, p: nat, s: nat)
    requires ValidTable(table) && p <= s <= |table|
    requires forall a :: p <= a < s && table[a].Some? ==> table[a].value.1 <= s
    ensures exists before :: Scan(table, p) == before + Scan(table, s)
    decreases s - p
  {
    if p == s {
      assert Scan(table, p) == [] + Scan(table, s);
    } else if table[p].None? {
      assert Scan(table, p) == Scan(table, p + 1);
      ScanReaches(table, p + 1, s);
    } else {
      var group := table[p].value.0;
      var end := table[p].value.1;
      assert Scan(table, p) == [group] + Scan(table, end);
      ScanReaches(table, end, s);
      var before :| Scan(table, end) == before + Scan(table, s);
      assert Scan(table, p) == ([group] + before) + Scan(table, s);
    }
  }

  /** The letters the people nouns begin with. */
  predicate NounInitial(c: char) {
    c == 'p' || c == 'i' || c == 'm' || c == 'w' || c == 'a' || c == 'c'
  }

  /** Non-empty alternatives made of lower-case letters. */
  predicate LowerWords(alts: seq<string>) {
    forall k :: 0 <= k < |alts| ==> alts[k] != [] && forall i :: 0 <= i < |alts[k]| ==> 'a' <= alts[k][i] <= 'z'
  }

  /** The nouns are lower-case words beginning with a noun initial. */
  lemma NounsShape()
    ensures LowerWords(Nouns)
    ensures forall k :: 0 <= k < |Nouns| ==> NounInitial(Nouns[k][0])
  {
  }

  /** An alternative of letters found at `f` covers letters only and begins
      with the first letter of one of the alternatives. */
  lemma AltAtLetters(t: string, f: nat, alts: seq<string>)
    requires LowerWords(alts) && AltAt(t, f, alts).Some?
    ensures f < AltAt(t, f, alts).value <= |t|
    ensures forall i :: f <= i < AltAt(t, f, alts).value ==> 'a' <= t[i] <= 'z'
    ensures exists k :: 0 <= k < |alts| && t[f] == alts[k][0]
  {
    var k :| 0 <= k < |alts| && StartsAt(t, f, alts[k]) && AltAt(t, f, alts).value == f + |alts[k]|;
    assert forall i :: f <= i < f + |alts[k]| ==> t[i] == alts[k][i - f];
  }

  /** A numeric group begins with a digit or with the first letter of a
      number word, never with a noun initial. */
  lemma NumericInitial(w: string)
    requires IsNumeric(w)
    ensures w != [] && !NounInitial(w[0])
  {
    if !(w != [] && AllDigits(w)) {
      NumberWordShape(w);
    }
  }

  lemma SpaceIsNoLetter(c: char)
    requires IsSpace(c)
    ensures !IsWordChar(c) && !('a' <= c <= 'z')
  {
  }

  /** A match of `(\w+)\s+(?:alts)` starting at `a` does not run across the
      start `s` of a word that follows whitespace, when no alternative begins
      with the word's first character. */
  lemma NoRunThenAltAcross(t: string, s: nat, a: nat, alts: seq<string>)
    requires LowerWords(alts)
    requires 0 <= a < s < |t| && IsSpace(t[s - 1]) && IsWordChar(t[s])
    requires forall k :: 0 <= k < |alts| ==> alts[k][0] != t[s]
    requires RunThenAlt(t, a, WordClass, alts).Some?
    ensures RunThenAlt(t, a, WordClass, alts).value.1 <= s
  {
    var e := RunEnd(t, a, WordClass);
    SpaceIsNoLetter(t[s - 1]);
    var f := RunEnd(t, e, SpaceClass);
    AltAtLetters(t, f, alts);
  }

  /** No match of the second pattern runs across the start `s` of a word that
      follows whitespace and does not begin with a noun initial. */
  lemma NoMatchAcross(t: string, s: nat)
    requires 0 < s < |t| && IsSpace(t[s - 1]) && IsWordChar(t[s]) && !NounInitial(t[s])
    ensures forall a :: 0 <= a < s && MatchAt(WordNoun, t, a).Some? ==> MatchAt(WordNoun, t, a).value.1 <= s
  {
    NounsShape();
    forall a | 0 <= a < s && MatchAt(WordNoun, t, a).Some?
      ensures MatchAt(WordNoun, t, a).value.1 <= s
    {
      NoRunThenAltAcross(t, s, a, Nouns);
    }
  }

  /** Every group the fourth pattern captures and reads as a number is also
      among the groups of the second pattern. */
  lemma VerbCaptureIsWordCapture(t: string, p: nat)
    requires p <= |t| && MatchAt(VerbWordPeople, t, p).Some?
    requires IsNumeric(MatchAt(VerbWordPeople, t, p).value.0)
    ensures MatchAt(VerbWordPeople, t, p).value.0 in FindAll(WordNoun, t, 0)
  {
    var w := MatchAt(VerbWordPeople, t, p).value.0;
    var q := AltAt(t, p, Verbs).value;
    var s := RunEnd(t, q, SpaceClass);
    assert q < s;
    var e := RunEnd(t, s, WordClass);
    assert w == t[s..e] && s < e;
    NumericInitial(w);
    assert t[s] == w[0];
    assert InClass(t[s - 1], SpaceClass);
    NoMatchAcross(t, s);
    var table := MatchTable(WordNoun, t);
    ScanReaches(table, 0, s);
    var before :| Scan(table, 0) == before + Scan(table, s);
    var f := RunEnd(t, e, SpaceClass);
    var k :| 0 <= k < |PeopleNouns| && StartsAt(t, f, PeopleNouns[k]);
    assert PeopleNouns[k] == Nouns[k];
    assert table[s].Some? && table[s].value.0 == w;
    assert Scan(table, s)[0] == w;
  }

  /** The fourth pattern never yields a count the second has not already
      yielded. */
  lemma VerbPatternNeverDecides(t: string)
    ensures PatternResult(VerbWordPeople, t).Some? ==> PatternResult(WordNoun, t).Some?
  {
    var groups := FindAll(VerbWordPeople, t, 0);
    if PatternResult(VerbWordPeople, t).Some? {
      var i :| 0 <= i < |groups| && IsNumeric(groups[i]);
      var table := MatchTable(VerbWordPeople, t);
      ScanMember(table, 0, i);
      var a :| 0 <= a < |t| && table[a].Some? && table[a].value.0 == groups[i];
      VerbCaptureIsWordCapture(t, a);
      var words := FindAll(WordNoun, t, 0);
      var j :| 0 <= j < |words| && words[j] == groups[i];
      assert IsNumeric(words[j]);
    }
  }

  /** An item whose outcome is `Some` only when an earlier item's already
      is can be left out without changing the first `Some`. */
  lemma {:induction false} DropRedundant<X>(before: seq<X>, x: X, after: seq<X>, f: X -> Option<nat>)
    requires f(x).Some? ==> FirstSome(before, f).Some?
    ensures FirstSome(before + [x] + after, f) == FirstSome(before + after, f)
    decreases |before|
  {
    if before == [] {
      assert before + [x] + after == [x] + after;
      assert ([x] + after)[1..] == after;
      assert before + after == after;
    } else {
      assert (before + [x] + after)[0] == before[0] == (before + after)[0];
      assert (before + [x] + after)[1..] == before[1..] + [x] + after;
      assert (before + after)[1..] == before[1..] + after;
      if f(before[0]).None? {
        DropRedundant(before[1..], x, after, f);
      }
    }
  }

  /** So the count is the same with the fourth pattern left out. */
  lemma VerbPatternRedundant(t: string)
    ensures PatternNumber(t, Patterns) == PatternNumber(t, [GroupPrefixed, WordNoun, DigitsNoun, WordPeopleActivity])
  {
    var before := [GroupPrefixed, WordNoun, DigitsNoun];
    var after := [WordPeopleActivity];
    var f := pat => PatternResult(pat, t);
    VerbPatternNeverDecides(t);
    assert f(VerbWordPeople).Some? ==> FirstSome(before, f).Some? by {
      if f(VerbWordPeople).Some? {
        assert f(before[1]).Some?;
      }
    }
    DropRedundant(before, VerbWordPeople, after, f);
    assert Patterns == before + [VerbWordPeople] + after;
    assert before + after == [GroupPrefixed, WordNoun, DigitsNoun, WordPeopleActivity];
  }

  /** The count depends on the text only up to the case of its letters. */
  lemma CountIgnoresCase(text: string)
    ensures ExtractPeopleCount(Lower(text)) == ExtractPeopleCount(text)
  {
    LowerIdempotent(text);
  }

  predicate LowerCaseWord(w: string) {
    w != [] && forall i :: 0 <= i < |w| ==> ('a' <= w[i] <= 'z' || IsDigit(w[i]))
  }

  /** The number words are lower-case words that do not begin with a noun
      initial. */
  lemma NumberWordShape(w: string)
    requires w in NumberWords
    ensures LowerCaseWord(w) && !NounInitial(w[0])
  {
    if w in {"zero", "one", "two", "three", "four", "five", "six", "seven", "eight", "nine", "ten"} {
      NumberWordsToTen(w);
    } else if w in {"eleven", "twelve", "thirteen", "fourteen", "fifteen"} {
      NumberWordsToFifteen(w);
    } else {
      assert w in {"sixteen", "seventeen", "eighteen", "nineteen", "twenty"};
      NumberWordsToTwenty(w);
    }
  }

  lemma NumberWordsToTen(w: string)
    requires w in {"zero", "one", "two", "three", "four", "five", "six", "seven", "eight", "nine", "ten"}
    ensures LowerCaseWord(w) && !NounInitial(w[0])
  {
  }

  lemma NumberWordsToFifteen(w: string)
    requires w in {"eleven", "twelve", "thirteen", "fourteen", "fifteen"}
    ensures LowerCaseWord(w) && !NounInitial(w[0])
  {
  }

  lemma NumberWordsToTwenty(w: string)
    requires w in {"sixteen", "seventeen", "eighteen", "nineteen", "twenty"}
    ensures LowerCaseWord(w) && !NounInitial(w[0])
  {
  }

  /** The only whitespace in a word, a space and a lower-case word is that
      space. */
  lemma OneSpace(t: string, w: string, x: string)
    requires LowerCaseWord(w) && LowerWords([x]) && t == w + " " + x
    ensures forall i :: 0 <= i < |t| && IsSpace(t[i]) ==> i == |w|
  {
    assert [x][0] == x;
    assert forall i :: 0 <= i < |w| ==> t[i] == w[i];
    assert forall i :: |w| < i < |t| ==> t[i] == x[i - |w| - 1];
  }

  /** A literal whose character at `i` the text lacks does not begin the
      text. */
  lemma NotStartsAt(t: string, x: string, i: nat)
    requires i < |x| && (i >= |t| || t[i] != x[i])
    ensures !StartsAt(t, 0, x)
  {
  }

  /** "group of" and "crowd of" hold their only space at index 5, followed
      by 'o', so neither begins a text whose only space is followed by
      another letter. */
  lemma NoGroupPrefix(t: string, s: nat)
    requires s + 1 < |t| && t[s + 1] != 'o'
    requires forall i :: 0 <= i < |t| && IsSpace(t[i]) ==> i == s
    ensures AltAt(t, 0, GroupPrefixes).None?
  {
    forall x | x in GroupPrefixes ensures !StartsAt(t, 0, x) {
      assert x[5] == ' ' && x[6] == 'o';
      if s == 5 {
        NotStartsAt(t, x, 6);
      } else {
        NotStartsAt(t, x, 5);
      }
    }
  }

  /** `(\w+)\s+(?:alts)` matches a word, a space and one of the
      alternatives at the start, capturing the word. */
  lemma WordSpaceAlt(t: string, w: string, alts: seq<string>, k: nat)
    requires LowerCaseWord(w) && LowerWords(alts) && k < |alts| && t == w + " " + alts[k]
    ensures RunThenAlt(t, 0, WordClass, alts).Some?
    ensures RunThenAlt(t, 0, WordClass, alts).value.0 == w
  {
    assert forall i :: 0 <= i < |w| ==> t[i] == w[i];
    RunEndOfRun(t, 0, |w|, WordClass);
    assert t[|w| + 1] == alts[k][0];
    RunEndOfRun(t, |w|, |w| + 1, SpaceClass);
    assert t[|w| + 1..] == alts[k];
    assert StartsAt(t, |w| + 1, alts[k]);
    assert t[0..|w|] == w;
  }

  /** The first pattern matches such a text at its start, capturing the
      word. */
  lemma WordThenNounMatches(t: string, w: string, k: nat)
    requires LowerCaseWord(w) && k < |Nouns| && t == w + " " + Nouns[k]
    ensures MatchAt(GroupPrefixed, t, 0).Some?
    ensures MatchAt(GroupPrefixed, t, 0).value.0 == w
  {
    NounsShape();
    assert LowerWords([Nouns[k]]);
    OneSpace(t, w, Nouns[k]);
    assert t[|w| + 1] == Nouns[k][0];
    NoGroupPrefix(t, |w|);
    assert t[0] == w[0];
    assert RunEnd(t, 0, SpaceClass) == 0;
    WordSpaceAlt(t, w, Nouns, k);
  }

  /** A description that is a number (in digits or in words) followed by one
      of the people nouns is counted as that number. */
  lemma CountBeforeNoun(w: string, k: nat)
    requires IsNumeric(w) && k < |Nouns|
    ensures ExtractPeopleCount(w + " " + Nouns[k]) == NumericValue(w)
  {
    if !(w != [] && AllDigits(w)) {
      NumberWordShape(w);
    }
    NounsShape();
    var t := w + " " + Nouns[k];
    assert Lower(t) == t by {
      forall i | 0 <= i < |t| ensures ToLower(t[i]) == t[i] {
        if i < |w| {
          assert t[i] == w[i];
        } else if i > |w| {
          assert t[i] == Nouns[k][i - |w| - 1];
        }
      }
    }
    WordThenNounMatches(t, w, k);
    var table := MatchTable(GroupPrefixed, t);
    assert Scan(table, 0)[0] == w;
    assert PatternResult(GroupPrefixed, t) == Some(NumericValue(w));
  }

  /** A run of a class that stops where the class stops is the run RunEnd finds. */
  lemma RunEndOfRun(t: string, p: nat, e: nat, cls: CharClass)
    requires p <= e <= |t|
    requires forall i :: p <= i < e ==> InClass(t[i], cls)
    requires e == |t| || !InClass(t[e], cls)
    ensures RunEnd(t, p, cls) == e
  {
  }

  /** Results without contents: as written the call raises
      `UnboundLocalError`; corrected, it reports no people. */
  lemma MissingContentsRaises()
    ensures AnalyzeImageForPeople(JObj(map[])) == Failure(UnboundLocalError)
    ensures AnalyzeImageForPeopleCorrected(JObj(map[])) == Success(PeopleReport(0, JStr(""), JObj(map[])))
  {
    assert HasContents(JObj(map[])) == Success(false);
  }

  /** The correction changes nothing but the outcome for results without
      contents. */
  lemma CorrectionOnlyAffectsMissingContents(results: Json)
    ensures AnalyzeImageForPeople(results) != AnalyzeImageForPeopleCorrected(results) <==>
      HasContents(results) == Success(false)
    ensures AnalyzeImageForPeople(results).Success? ==>
      AnalyzeImageForPeopleCorrected(results) == AnalyzeImageForPeople(results)
  {
  }
}
