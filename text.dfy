/** The Python string operations that the modelled code relies on, over strings
    as sequences of Unicode scalar values (one `char` per Python code point). */
module Text {

  /** One byte of blob or document content. */
  type Byte = b: int | 0 <= b < 256

  /** Python's `str.isspace()`: what `str.split()` splits on and what `\s`
      matches in a `str` regular expression. */
  predicate IsSpace(c: char) {
    c == ' ' || ('\t' <= c <= '\r') || ('\U{1C}' <= c <= '\U{1F}')
    || c == '\U{85}' || c == '\U{A0}' || c == '\U{1680}'
    || ('\U{2000}' <= c <= '\U{200A}') || c == '\U{2028}' || c == '\U{2029}'
    || c == '\U{202F}' || c == '\U{205F}' || c == '\U{3000}'
  }

  predicate IsDigit(c: char) {
    '0' <= c <= '9'
  }

  predicate IsAsciiLetter(c: char) {
    'a' <= c <= 'z' || 'A' <= c <= 'Z'
  }

  /** `\w` on ASCII text: letters, digits and the underscore. */
  predicate IsWordChar(c: char) {
    IsAsciiLetter(c) || IsDigit(c) || c == '_'
  }

  predicate AllDigits(s: string) {
    forall i :: 0 <= i < |s| ==> IsDigit(s[i])
  }

  function ToLower(c: char): char {
    if 'A' <= c <= 'Z' then (c as int + 32) as char else c
  }

  /** `s.lower()`, folding the ASCII capitals; every other character is kept. */
  function Lower(s: string): (r: string)
    ensures |r| == |s|
    ensures forall i :: 0 <= i < |s| ==> r[i] == ToLower(s[i])
  {
    seq(|s|, i requires 0 <= i < |s| => ToLower(s[i]))
  }

  lemma LowerIdempotent(s: string)
    ensures Lower(Lower(s)) == Lower(s)
  {
  }

  lemma LowerAppend(a: string, b: string)
    ensures Lower(a + b) == Lower(a) + Lower(b)
  {
  }

  predicate StartsWith(s: string, prefix: string) {
    |prefix| <= |s| && s[..|prefix|] == prefix
  }

  predicate EndsWith(s: string, suffix: string) {
    |suffix| <= |s| && s[|s| - |suffix|..] == suffix
  }

  /** Python's `sub in s` for two strings. */
  predicate Contains(s: string, sub: string)
    decreases |s|
  {
    StartsWith(s, sub) || (s != [] && Contains(s[1..], sub))
  }

  /** `s.replace(old, new)` for single characters. */
  function ReplaceChar(s: string, from: char, to: char): (r: string)
    ensures |r| == |s|
    ensures forall i :: 0 <= i < |s| ==> r[i] == if s[i] == from then to else s[i]
  {
    seq(|s|, i requires 0 <= i < |s| => if s[i] == from then to else s[i])
  }

  /** `s.rstrip(c)`: `s` without its trailing run of `c`. */
  function RStrip(s: string, c: char): (r: string)
    ensures StartsWith(s, r)
    ensures r == [] || r[|r| - 1] != c
    ensures forall i :: |r| <= i < |s| ==> s[i] == c
    decreases |s|
  {
    if s != [] && s[|s| - 1] == c then RStrip(s[..|s| - 1], c) else s
  }

  /** `s.split(sep)` for a one-character separator: the pieces between the
      separators, empty pieces included. */
  function Split(s: string, sep: char): (parts: seq<string>)
    ensures |parts| >= 1
    ensures |parts| == 1 <==> sep !in s
    ensures forall i :: 0 <= i < |parts| ==> sep !in parts[i]
    decreases |s|
  {
    if s == [] then [[]]
    else
      var rest := Split(s[1..], sep);
      assert s == [s[0]] + s[1..];
      if s[0] == sep then [[]] + rest
      else [[s[0]] + rest[0]] + rest[1..]
  }

  /** `sep.join(parts)`. */
  function Join(parts: seq<string>, sep: char): string {
    if parts == [] then []
    else if |parts| == 1 then parts[0]
    else parts[0] + [sep] + Join(parts[1..], sep)
  }

  lemma {:induction false} JoinSplit(s: string, sep: char)
    ensures Join(Split(s, sep), sep) == s
    decreases |s|
  {
    if s != [] {
      JoinSplit(s[1..], sep);
      var rest := Split(s[1..], sep);
      if s[0] != sep && |rest| > 1 {
        assert Join(rest, sep) == rest[0] + [sep] + Join(rest[1..], sep);
      }
    }
  }

  lemma {:induction false} JoinSnoc(parts: seq<string>, x: string, sep: char)
    requires parts != []
    ensures Join(parts + [x], sep) == Join(parts, sep) + [sep] + x
    decreases |parts|
  {
    if |parts| > 1 {
      assert (parts + [x])[1..] == parts[1..] + [x];
      JoinSnoc(parts[1..], x, sep);
    }
  }

  lemma {:induction false} SplitConcat(a: string, b: string, sep: char)
    ensures Split(a + [sep] + b, sep) == Split(a, sep) + Split(b, sep)
    decreases |a|
  {
    if a == [] {
      assert ([sep] + b)[1..] == b;
    } else {
      assert (a + [sep] + b)[1..] == a[1..] + [sep] + b;
      SplitConcat(a[1..], b, sep);
    }
  }

  function Last(parts: seq<string>): string
    requires parts != []
  {
    parts[|parts| - 1]
  }

  /** `s.split(sep)[-1]`: the text after the last separator, or all of `s`
      when it holds none. */
  function AfterLast(s: string, sep: char): (r: string)
    ensures sep !in r
    ensures EndsWith(s, r)
    ensures sep !in s ==> r == s
    ensures sep in s ==> |r| < |s| && s[|s| - |r| - 1] == sep
  {
    var parts := Split(s, sep);
    JoinSplit(s, sep);
    if |parts| > 1 then
      JoinSnoc(parts[..|parts| - 1], Last(parts), sep);
      assert parts[..|parts| - 1] + [Last(parts)] == parts;
      Last(parts)
    else
      Last(parts)
  }

  /** The text after the last separator is the one suffix without a
      separator that is all of `s` or follows a separator. */
  lemma AfterLastUnique(s: string, sep: char, r: string)
    requires sep !in r && EndsWith(s, r)
    requires |r| == |s| || s[|s| - |r| - 1] == sep
    ensures r == AfterLast(s, sep)
  {
    var a := AfterLast(s, sep);
    assert r == s[|s| - |r|..] == a;
  }

  /** Lower-casing commutes with taking the text after the last separator,
      for a separator that is not a letter. */
  lemma LowerAfterLast(s: string, sep: char)
    requires !IsAsciiLetter(sep)
    ensures AfterLast(Lower(s), sep) == Lower(AfterLast(s, sep))
  {
    var a := AfterLast(s, sep);
    var ls := Lower(s);
    var r := Lower(a);
    assert sep !in r by {
      forall i | 0 <= i < |r| ensures r[i] != sep {
        assert a[i] != sep;
      }
    }
    assert ls[|s| - |a|..] == r by {
      assert s[|s| - |a|..] == a;
    }
    AfterLastUnique(ls, sep, r);
  }

  /** The key `{name}_{version}` under which both schema caches store a schema
      and from which the schema file name is formed. */
  function SchemaKey(name: string, version: string): string {
    name + "_" + version
  }

  /** The version is what follows the last '_' of a key, when it holds no '_'. */
  lemma {:induction false} SchemaKeyVersion(name: string, version: string)
    requires '_' !in version
    ensures AfterLast(SchemaKey(name, version), '_') == version
  {
    assert SchemaKey(name, version) == name + ['_'] + version;
    SplitConcat(name, version, '_');
    JoinSplit(version, '_');
  }

  /** Distinct name and version pairs give distinct keys as long as the
      versions hold no '_'. */
  lemma SchemaKeyInjective(name1: string, version1: string, name2: string, version2: string)
    requires '_' !in version1 && '_' !in version2
    requires SchemaKey(name1, version1) == SchemaKey(name2, version2)
    ensures name1 == name2 && version1 == version2
  {
    var key := SchemaKey(name1, version1);
    SchemaKeyVersion(name1, version1);
    SchemaKeyVersion(name2, version2);
    assert name1 == key[..|key| - |version1| - 1];
    assert name2 == key[..|key| - |version2| - 1];
  }

  /** With a '_' in the version, two different pairs share a key. */
  lemma SchemaKeyCollision()
    ensures SchemaKey("a_b", "c") == SchemaKey("a", "b_c")
  {
    assert SchemaKey("a_b", "c") == "a_b_c";
  }

  /** Length of the run of non-whitespace characters at the start of `s`. */
  function WordLength(s: string): (n: nat)
    ensures n <= |s|
    ensures forall i :: 0 <= i < n ==> !IsSpace(s[i])
    ensures n == |s| || IsSpace(s[n])
    decreases |s|
  {
    if s == [] || IsSpace(s[0]) then 0 else 1 + WordLength(s[1..])
  }

  /** `s.split()`: the maximal runs of non-whitespace characters, in order. */
  function Words(s: string): (words: seq<string>)
    ensures forall i :: 0 <= i < |words| ==> words[i] != []
    ensures forall i, j :: 0 <= i < |words| && 0 <= j < |words[i]| ==> !IsSpace(words[i][j])
    decreases |s|
  {
    if s == [] then []
    else if IsSpace(s[0]) then Words(s[1..])
    else
      var n := WordLength(s);
      [s[..n]] + Words(s[n..])
  }

  /** The number of positions of `s` that hold a non-whitespace character right
      after whitespace or after the start; `afterSpace` says whether the
      position before `s` counts as whitespace. */
  function WordStarts(s: string, afterSpace: bool): nat
    decreases |s|
  {
    if s == [] then 0
    else (if afterSpace && !IsSpace(s[0]) then 1 else 0) + WordStarts(s[1..], IsSpace(s[0]))
  }

  lemma {:induction false} WordStartsInsideWord(s: string, i: nat)
    requires 1 <= i <= WordLength(s)
    ensures WordStarts(s[1..], false) == WordStarts(s[i..], false)
    decreases i
  {
    if i > 1 {
      WordStartsInsideWord(s, i - 1);
      assert s[i - 1..][1..] == s[i..];
    }
  }

  /** The number of words `str.split()` finds is the number of word starts. */
  lemma {:induction false} WordsCountWordStarts(s: string)
    ensures |Words(s)| == WordStarts(s, true)
    decreases |s|
  {
    if s != [] {
      if IsSpace(s[0]) {
        WordsCountWordStarts(s[1..]);
      } else {
        var n := WordLength(s);
        WordStartsInsideWord(s, n);
        WordsCountWordStarts(s[n..]);
      }
    }
  }

  function DigitValue(c: char): nat
    requires IsDigit(c)
  {
    (c as int) - ('0' as int)
  }

  function DigitChar(d: nat): (c: char)
    requires d < 10
    ensures IsDigit(c) && DigitValue(c) == d
  {
    ('0' as int + d) as char
  }

  /** `int(s)` for a string of ASCII digits. */
  function DecimalValue(s: string): nat
    requires AllDigits(s)
    decreases |s|
  {
    if s == [] then 0 else DecimalValue(s[..|s| - 1]) * 10 + DigitValue(s[|s| - 1])
  }

  /** `str(n)` for a natural number: its decimal digits. */
  function NatToDecimal(n: nat): (s: string)
    ensures s != [] && AllDigits(s)
    ensures DecimalValue(s) == n
  {
    if n < 10 then [DigitChar(n)]
    else
      var s := NatToDecimal(n / 10) + [DigitChar(n % 10)];
      assert s[..|s| - 1] == NatToDecimal(n / 10);
      s
  }

  /** `str(n)` for an integer. */
  function IntToDecimal(n: int): string {
    if n < 0 then "-" + NatToDecimal(-n) else NatToDecimal(n)
  }
}
