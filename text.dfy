/** The string operations the program uses, over `seq<char>`: ASCII case
    folding (`to_ascii_lowercase`, `eq_ignore_ascii_case`), prefix and suffix
    tests, Rust's `str::trim` and Rust's `str::lines`. */
module Text {

  /** One character of `to_ascii_lowercase`. */
  function LowerChar(c: char): char {
    if 'A' <= c <= 'Z' then (c as int + 32) as char else c
  }

  /** One character of `to_ascii_uppercase`. */
  function UpperChar(c: char): char {
    if 'a' <= c <= 'z' then (c as int - 32) as char else c
  }

  /** ASCII lower case of a whole string. */
  function Lower(s: string): (r: string)
    ensures |r| == |s|
  {
    seq(|s|, i requires 0 <= i < |s| => LowerChar(s[i]))
  }

  /** ASCII upper case of a whole string. */
  function Upper(s: string): (r: string)
    ensures |r| == |s|
  {
    seq(|s|, i requires 0 <= i < |s| => UpperChar(s[i]))
  }

  /** Rust's `eq_ignore_ascii_case`. */
  predicate EqIgnoreCase(a: string, b: string) {
    Lower(a) == Lower(b)
  }

  predicate StartsWith(s: string, prefix: string) {
    |prefix| <= |s| && s[..|prefix|] == prefix
  }

  predicate EndsWith(s: string, suffix: string) {
    |suffix| <= |s| && s[|s| - |suffix|..] == suffix
  }

  /** True iff some character of `s` is one of `chars` (Rust's `str::contains`
      with a character array as the pattern). */
  predicate ContainsAny(s: string, chars: set<char>) {
    exists i :: 0 <= i < |s| && s[i] in chars
  }

  /** Case folding commutes with taking a prefix. */
  lemma LowerPrefix(s: string, n: nat)
    requires n <= |s|
    ensures Lower(s[..n]) == Lower(s)[..n]
  {
  }

  /** Lower case of a string, lower-cased again, does not change. */
  lemma LowerIdempotent(s: string)
    ensures Lower(Lower(s)) == Lower(s)
  {
  }

  /** Upper-casing and comparing exactly agrees with comparing ignoring ASCII
      case, against a word that is already upper case. */
  lemma UpperEqIffEqIgnoreCase(s: string, w: string)
    requires Upper(w) == w
    ensures Upper(s) == w <==> EqIgnoreCase(s, w)
  {
    if Upper(s) == w {
      assert |s| == |w|;
      forall i | 0 <= i < |s| ensures Lower(s)[i] == Lower(w)[i] {
        assert UpperChar(s[i]) == w[i];
      }
    }
    if EqIgnoreCase(s, w) {
      assert |s| == |w|;
      forall i | 0 <= i < |s| ensures Upper(s)[i] == w[i] {
        assert Lower(s)[i] == Lower(w)[i];
        UpperOfLower(s[i]);
        UpperOfLower(w[i]);
        assert UpperChar(w[i]) == w[i];
      }
    }
  }

  lemma UpperOfLower(c: char)
    ensures UpperChar(LowerChar(c)) == UpperChar(c)
  {
  }

  /** The whitespace that `str::trim` removes, restricted to ASCII. */
  predicate IsWhitespace(c: char) {
    c == ' ' || '\t' <= c <= '\r'
  }

  /** How many whitespace characters `s` starts with. */
  function LeadingWhitespace(s: string): (n: nat)
    ensures n <= |s|
    ensures forall i :: 0 <= i < n ==> IsWhitespace(s[i])
    ensures n < |s| ==> !IsWhitespace(s[n])
  {
    if s != [] && IsWhitespace(s[0]) then 1 + LeadingWhitespace(s[1..]) else 0
  }

  /** How many whitespace characters `s` ends with. */
  function TrailingWhitespace(s: string): (n: nat)
    ensures n <= |s|
    ensures forall i :: |s| - n <= i < |s| ==> IsWhitespace(s[i])
    ensures n < |s| ==> !IsWhitespace(s[|s| - 1 - n])
  {
    if s != [] && IsWhitespace(s[|s| - 1]) then 1 + TrailingWhitespace(s[..|s| - 1]) else 0
  }

  /** Rust's `trim_start` over ASCII whitespace. */
  function TrimStart(s: string): string {
    s[LeadingWhitespace(s)..]
  }

  /** Rust's `trim_end` over ASCII whitespace. */
  function TrimEnd(s: string): string {
    s[..|s| - TrailingWhitespace(s)]
  }

  /** Rust's `str::trim`: the longest infix without whitespace at either end. */
  function Trim(s: string): string {
    TrimEnd(TrimStart(s))
  }

  /** What `Trim` keeps: a contiguous run of `s` after its leading
      whitespace, with only whitespace cut away behind it. */
  lemma TrimIsInfix(s: string)
    ensures LeadingWhitespace(s) + |Trim(s)| <= |s|
    ensures Trim(s) == s[LeadingWhitespace(s)..LeadingWhitespace(s) + |Trim(s)|]
    ensures forall k :: LeadingWhitespace(s) + |Trim(s)| <= k < |s| ==> IsWhitespace(s[k])
  {
    var i := LeadingWhitespace(s);
    var t := s[i..];
    var n := TrailingWhitespace(t);
    var u := t[..|t| - n];
    assert Trim(s) == u;
    assert |u| == |s| - i - n;
    assert u == s[i..|s| - n];
    TrailingOfSuffix(s, i);
  }

  /** The trailing whitespace of a suffix is trailing whitespace of the whole. */
  lemma TrailingOfSuffix(s: string, i: nat)
    requires i <= |s|
    ensures forall k :: |s| - TrailingWhitespace(s[i..]) <= k < |s| ==> IsWhitespace(s[k])
  {
    var t := s[i..];
    forall k | |s| - TrailingWhitespace(t) <= k < |s| ensures IsWhitespace(s[k]) {
      assert s[k] == t[k - i];
    }
  }

  /** `Trim` leaves no whitespace at either end. */
  lemma TrimEnds(s: string)
    ensures Trim(s) == [] || (!IsWhitespace(Trim(s)[0]) && !IsWhitespace(Trim(s)[|Trim(s)| - 1]))
  {
    var i := LeadingWhitespace(s);
    var t := s[i..];
    var n := TrailingWhitespace(t);
    var u := t[..|t| - n];
    assert Trim(s) == u;
    if u != [] {
      assert u[0] == t[0] == s[i];
      assert u[|u| - 1] == t[|t| - 1 - n];
    }
  }

  /** Text without whitespace at its ends is its own trim. */
  lemma TrimWord(s: string)
    requires s != [] && !IsWhitespace(s[0]) && !IsWhitespace(s[|s| - 1])
    ensures Trim(s) == s
  {
    assert LeadingWhitespace(s) == 0;
    assert s[0..] == s;
    assert TrailingWhitespace(s) == 0;
    assert s[..|s|] == s;
  }

  /** Index of the first line feed, or `|s|` when there is none. */
  function IndexOfNewline(s: string): (i: nat)
    ensures i <= |s|
    ensures i < |s| ==> s[i] == '\n'
    ensures forall j :: 0 <= j < i ==> s[j] != '\n'
  {
    if s == [] || s[0] == '\n' then 0 else 1 + IndexOfNewline(s[1..])
  }

  /** `IndexOfNewline` is pinned down by where the first line feed is. */
  lemma IndexOfNewlineAt(s: string, i: nat)
    requires i <= |s| && (i < |s| ==> s[i] == '\n')
    requires forall j :: 0 <= j < i ==> s[j] != '\n'
    ensures IndexOfNewline(s) == i
  {
  }

  /** Drops one carriage return at the end of a line that was ended by a line
      feed (so `"\r\n"` endings count as one). */
  function StripCr(line: string): string {
    if line != [] && line[|line| - 1] == '\r' then line[..|line| - 1] else line
  }

  /** Rust's `str::lines`: split at each `'\n'`, drop a `'\r'` just before it,
      and produce no empty last line for a string that ends with `'\n'`. */
  function Lines(s: string): (r: seq<string>)
    ensures s != [] <==> r != []
    ensures forall k :: 0 <= k < |r| ==> '\n' !in r[k]
    decreases |s|
  {
    if s == [] then []
    else
      var i := IndexOfNewline(s);
      if i == |s| then [s] else [StripCr(s[..i])] + Lines(s[i + 1..])
  }

  /** Joins lines with `'\n'` between them. */
  function Unlines(lines: seq<string>): string {
    if lines == [] then []
    else if |lines| == 1 then lines[0]
    else lines[0] + "\n" + Unlines(lines[1..])
  }

  /** `Lines` of a string with a line feed at `i`, not at its end. */
  lemma LinesSplit(s: string, i: nat)
    requires i == IndexOfNewline(s) && i < |s|
    ensures Lines(s) == [StripCr(s[..i])] + Lines(s[i + 1..])
  {
  }

  lemma UnlinesCons(line: string, rest: seq<string>)
    requires rest != []
    ensures Unlines([line] + rest) == line + "\n" + Unlines(rest)
  {
    assert ([line] + rest)[1..] == rest;
  }

  /** Splitting into lines loses nothing for text without carriage returns
      and without a final line feed. */
  lemma {:induction false} UnlinesLines(s: string)
    requires '\r' !in s
    requires s == [] || s[|s| - 1] != '\n'
    ensures Unlines(Lines(s)) == s
    decreases |s|
  {
    if s != [] {
      var i := IndexOfNewline(s);
      if i < |s| {
        var head, rest := s[..i], s[i + 1..];
        SplitAtNewline(s, i);
        UnlinesLines(rest);
        LinesSplit(s, i);
        UnlinesCons(head, Lines(rest));
      }
    }
  }

  /** The two sides of a line feed that is not the last character. */
  lemma SplitAtNewline(s: string, i: nat)
    requires '\r' !in s && s != [] && s[|s| - 1] != '\n'
    requires i < |s| && s[i] == '\n'
    ensures s == s[..i] + "\n" + s[i + 1..]
    ensures StripCr(s[..i]) == s[..i]
    ensures '\r' !in s[i + 1..] && s[i + 1..] != [] && s[|s| - 1] == s[i + 1..][|s| - i - 2]
    ensures Lines(s[i + 1..]) != []
  {
    assert i < |s| - 1;
    var head, rest := s[..i], s[i + 1..];
    assert head != [] ==> head[|head| - 1] == s[i - 1];
    assert forall k :: 0 <= k < |rest| ==> rest[k] == s[i + 1 + k];
  }

  // Worked examples of `trim` on the lines of one `.ignore` text.

  lemma TrimExamples()
    ensures Trim("#x") == "#x" && Trim(" b") == "b" && Trim("a") == "a" && Trim("") == ""
  {
    TrimWord("#x");
    TrimWord("a");
    TrimWord("b");
    assert LeadingWhitespace(" b") == 1 by { assert " b"[1..] == "b"; }
    assert TrimStart(" b") == "b";
  }

  /** A single line without a line feed is its own split. */
  lemma LinesOfLine(s: string)
    requires s != [] && '\n' !in s
    ensures Lines(s) == [s]
  {
    IndexOfNewlineAt(s, |s|);
  }

  /** The first line ends at the first line feed and loses a carriage return
      just before it; the rest is split on its own. */
  lemma LinesCons(head: string, rest: string)
    requires '\n' !in head
    ensures Lines(head + "\n" + rest) == [StripCr(head)] + Lines(rest)
  {
    var s := head + "\n" + rest;
    IndexOfNewlineAt(s, |head|);
    assert s[..|head|] == head;
    assert s[|head| + 1..] == rest;
  }
}
