/**
 * The JavaScript string operations the sampler relies on: `trim`,
 * `split(/\s+/)`, `split(/\r?\n/)`, `indexOf("\n")` and `Number(text)`.
 * The functions carry only the facts needed to define them; what they
 * compute is stated by the lemmas beside them.
 */
module Text {
  import opened Wrappers

  /** ECMAScript WhiteSpace and LineTerminator: what `trim` removes and `\s` matches. */
  predicate IsSpace(c: char) {
    c == ' ' || c == '\t' || c == '\n' || c == '\r' || c == '\U{B}' || c == '\U{C}'
    || c == '\U{A0}' || c == '\U{1680}' || ('\U{2000}' <= c <= '\U{200A}')
    || c == '\U{2028}' || c == '\U{2029}' || c == '\U{202F}' || c == '\U{205F}'
    || c == '\U{3000}' || c == '\U{FEFF}'
  }

  predicate AllSpace(s: string) {
    forall k :: 0 <= k < |s| ==> IsSpace(s[k])
  }

  /** Neither end of `s` is whitespace: `s` is its own `trim()`. */
  predicate IsTrimmed(s: string) {
    s == [] || (!IsSpace(s[0]) && !IsSpace(s[|s| - 1]))
  }

  /** A non-empty run of characters none of which is whitespace. */
  predicate IsWord(x: string) {
    x != [] && forall k :: 0 <= k < |x| ==> !IsSpace(x[k])
  }

  /** `s.trimStart()`. */
  function TrimStart(s: string): (r: string)
    ensures |r| <= |s|
  {
    if s != [] && IsSpace(s[0]) then TrimStart(s[1..]) else s
  }

  /** `s.trimEnd()`. */
  function TrimEnd(s: string): (r: string)
    ensures |r| <= |s|
  {
    if s != [] && IsSpace(s[|s| - 1]) then TrimEnd(s[..|s| - 1]) else s
  }

  /** `s.trim()`. */
  function Trim(s: string): string {
    TrimEnd(TrimStart(s))
  }

  /** `trimStart` keeps a suffix and cuts only whitespace, up to a character that is not. */
  lemma {:induction false} TrimStartSpec(s: string)
    ensures var r := TrimStart(s);
      r == s[|s| - |r|..] && AllSpace(s[..|s| - |r|]) && (r != [] ==> !IsSpace(r[0]))
  {
    if s != [] && IsSpace(s[0]) {
      TrimStartSpec(s[1..]);
      var r := TrimStart(s);
      assert s[..|s| - |r|] == [s[0]] + s[1..][..|s| - 1 - |r|];
    }
  }

  /** `trimEnd` keeps a prefix and cuts only whitespace, back to a character that is not. */
  lemma {:induction false} TrimEndSpec(s: string)
    ensures var r := TrimEnd(s);
      r == s[..|r|] && AllSpace(s[|r|..]) && (r != [] ==> !IsSpace(r[|r| - 1]))
  {
    if s != [] && IsSpace(s[|s| - 1]) {
      TrimEndSpec(s[..|s| - 1]);
      var r := TrimEnd(s);
      assert s[|r|..] == s[..|s| - 1][|r|..] + [s[|s| - 1]];
    }
  }

  /** `trim` yields a trimmed slice of `s` with only whitespace on either side of it. */
  lemma TrimSpec(s: string)
    ensures IsTrimmed(Trim(s))
    ensures var r, i := Trim(s), |s| - |TrimStart(s)|;
      i + |r| <= |s| && r == s[i..i + |r|] && AllSpace(s[..i]) && AllSpace(s[i + |r|..])
  {
    var t := TrimStart(s);
    var r := TrimEnd(t);
    var i := |s| - |t|;
    TrimStartSpec(s);
    TrimEndSpec(t);
    assert t == s[i..];
    assert r == t[..|r|] == s[i..i + |r|];
    assert t[|r|..] == s[i + |r|..];
    assert r != [] ==> r[0] == t[0];
  }

  lemma {:induction false} TrimStartPadded(w: string, x: string)
    requires AllSpace(w)
    requires x != [] && !IsSpace(x[0])
    ensures TrimStart(w + x) == x
  {
    if w != [] {
      assert (w + x)[1..] == w[1..] + x;
      TrimStartPadded(w[1..], x);
    } else {
      assert w + x == x;
    }
  }

  lemma {:induction false} TrimEndPadded(x: string, w: string)
    requires AllSpace(w)
    requires x != [] && !IsSpace(x[|x| - 1])
    ensures TrimEnd(x + w) == x
  {
    if w != [] {
      assert (x + w)[..|x + w| - 1] == x + w[..|w| - 1];
      TrimEndPadded(x, w[..|w| - 1]);
    } else {
      assert x + w == x;
    }
  }

  /** Whitespace around a trimmed, non-empty text is exactly what `trim()` removes. */
  lemma TrimPadded(w1: string, x: string, w2: string)
    requires AllSpace(w1) && AllSpace(w2)
    requires x != [] && IsTrimmed(x)
    ensures Trim(w1 + x + w2) == x
  {
    assert w1 + x + w2 == w1 + (x + w2);
    TrimStartPadded(w1, x + w2);
    TrimEndPadded(x, w2);
  }

  /** Length of the leading run of non-whitespace characters. */
  function TokenEnd(s: string): (n: nat)
    ensures n <= |s|
  {
    if s == [] || IsSpace(s[0]) then 0 else 1 + TokenEnd(s[1..])
  }

  lemma {:induction false} TokenEndSpec(s: string)
    ensures var n := TokenEnd(s);
      (forall k :: 0 <= k < n ==> !IsSpace(s[k])) && (n < |s| ==> IsSpace(s[n]))
  {
    if s != [] && !IsSpace(s[0]) {
      TokenEndSpec(s[1..]);
      var n := TokenEnd(s);
      assert forall k :: 1 <= k < n ==> s[k] == s[1..][k - 1];
    }
  }

  /** The maximal runs of non-whitespace characters of `s`, in order. */
  function Tokens(s: string): seq<string>
    decreases |s|
  {
    var t := TrimStart(s);
    if t == [] then []
    else
      TrimStartSpec(s);
      var n := TokenEnd(t);
      [t[..n]] + Tokens(t[n..])
  }

  /** `s.trim().split(/\s+/)`: the words of `s`, or `[""]` when `s` is blank. */
  function WsSplit(s: string): (r: seq<string>)
    ensures |r| >= 1
  {
    var t := Trim(s);
    if t == [] then [""]
    else
      TrimSpec(s);
      Tokens(t)
  }

  /** Every token is a word. */
  lemma {:induction false} TokensAreWords(s: string)
    ensures forall i :: 0 <= i < |Tokens(s)| ==> IsWord(Tokens(s)[i])
    decreases |s|
  {
    var t := TrimStart(s);
    if t != [] {
      TrimStartSpec(s);
      TokenEndSpec(t);
      var n := TokenEnd(t);
      var rest := Tokens(t[n..]);
      assert Tokens(s) == [t[..n]] + rest;
      TokensAreWords(t[n..]);
      assert IsWord(t[..n]);
      forall i | 0 <= i < |Tokens(s)| ensures IsWord(Tokens(s)[i]) {
        if i > 0 {
          assert Tokens(s)[i] == rest[i - 1];
        }
      }
    }
  }

  /** Blank text splits into `[""]`; any other text splits into words only. */
  lemma WsSplitWords(s: string)
    ensures Trim(s) == [] <==> WsSplit(s) == [""]
    ensures Trim(s) != [] ==> forall i :: 0 <= i < |WsSplit(s)| ==> IsWord(WsSplit(s)[i])
  {
    var t := Trim(s);
    TokensAreWords(t);
    if t != [] {
      TrimSpec(s);
      assert TrimStart(t) == t;
      assert IsWord(Tokens(t)[0]);
    }
  }

  lemma {:induction false} TokenEndWord(x: string, rest: string)
    requires IsWord(x)
    requires rest == [] || IsSpace(rest[0])
    ensures TokenEnd(x + rest) == |x|
  {
    if |x| == 1 {
      assert (x + rest)[1..] == rest;
    } else {
      assert (x + rest)[1..] == x[1..] + rest;
      TokenEndWord(x[1..], rest);
    }
  }

  lemma TokensWordThen(x: string, rest: string)
    requires IsWord(x)
    requires rest == [] || IsSpace(rest[0])
    ensures Tokens(x + rest) == [x] + Tokens(rest)
  {
    var s := x + rest;
    TrimStartPadded([], s);
    assert [] + s == s;
    TokenEndWord(x, rest);
    assert s[..|x|] == x;
    assert s[|x|..] == rest;
  }

  lemma TokensOfWord(x: string)
    requires IsWord(x)
    ensures Tokens(x) == [x]
  {
    TokensWordThen(x, []);
    assert x + [] == x;
  }

  lemma TokensAfterSpace(y: string)
    requires IsWord(y)
    ensures Tokens(" " + y) == [y]
  {
    TrimStartPadded(" ", y);
    TokensOfWord(y);
    assert TrimStart(y) == y by { TrimStartPadded([], y); assert [] + y == y; }
  }

  /** Two words separated by one space split into exactly those two words. */
  lemma WsSplitTwoWords(x: string, y: string)
    requires IsWord(x) && IsWord(y)
    ensures WsSplit(x + " " + y) == [x, y]
  {
    var s := x + (" " + y);
    assert x + " " + y == s;
    assert Trim(s) == s by {
      assert s[0] == x[0];
      assert s[|s| - 1] == y[|y| - 1];
      TrimPadded([], s, []);
      assert [] + s + [] == s;
    }
    assert Tokens(s) == [x, y] by {
      TokensWordThen(x, " " + y);
      TokensAfterSpace(y);
    }
  }

  /** Leading whitespace makes no difference to the tokens. */
  lemma {:induction false} TokensAfterSpaces(w: string, s: string)
    requires AllSpace(w)
    ensures Tokens(w + s) == Tokens(s)
  {
    TrimStartSpaces(w, s);
  }

  lemma {:induction false} TrimStartSpaces(w: string, s: string)
    requires AllSpace(w)
    ensures TrimStart(w + s) == TrimStart(s)
  {
    if w != [] {
      assert (w + s)[1..] == w[1..] + s;
      TrimStartSpaces(w[1..], s);
    } else {
      assert w + s == s;
    }
  }

  /** `words[0] + gaps[0] + words[1] + … + words[n - 1]`. */
  function Joined(words: seq<string>, gaps: seq<string>): string
    requires |words| >= 1 && |gaps| == |words| - 1
  {
    if |words| == 1 then words[0] else words[0] + gaps[0] + Joined(words[1..], gaps[1..])
  }

  /** Words joined by anything start and end with a word's character, so they are trimmed. */
  lemma {:induction false} JoinedEnds(words: seq<string>, gaps: seq<string>)
    requires |words| >= 1 && |gaps| == |words| - 1
    requires forall i :: 0 <= i < |words| ==> IsWord(words[i])
    ensures Joined(words, gaps) != [] && IsTrimmed(Joined(words, gaps))
  {
    var j := Joined(words, gaps);
    assert IsWord(words[0]);
    if |words| > 1 {
      var rest := Joined(words[1..], gaps[1..]);
      assert forall i :: 0 <= i < |words[1..]| ==> IsWord(words[1..][i]) by {
        forall i | 0 <= i < |words[1..]| ensures IsWord(words[1..][i]) {
          assert words[1..][i] == words[i + 1];
        }
      }
      JoinedEnds(words[1..], gaps[1..]);
      assert j == words[0] + gaps[0] + rest;
      assert j[0] == words[0][0];
      assert j[|j| - 1] == rest[|rest| - 1];
    }
  }

  /** The tokens of words joined by non-empty whitespace are those words, in order. */
  lemma {:induction false} TokensOfJoined(words: seq<string>, gaps: seq<string>)
    requires |words| >= 1 && |gaps| == |words| - 1
    requires forall i :: 0 <= i < |words| ==> IsWord(words[i])
    requires forall i :: 0 <= i < |gaps| ==> gaps[i] != [] && AllSpace(gaps[i])
    ensures Tokens(Joined(words, gaps)) == words
  {
    if |words| == 1 {
      TokensOfWord(words[0]);
    } else {
      var rest := Joined(words[1..], gaps[1..]);
      assert Joined(words, gaps) == words[0] + (gaps[0] + rest);
      assert IsWord(words[0]) && IsSpace(gaps[0][0]);
      TokensWordThen(words[0], gaps[0] + rest);
      TokensAfterSpaces(gaps[0], rest);
      TokensOfJoined(words[1..], gaps[1..]);
      assert words == [words[0]] + words[1..];
    }
  }

  /**
   * `trim().split(/\s+/)` of words separated by runs of whitespace, with
   * any whitespace around them, gives back exactly those words in order.
   */
  lemma WsSplitOfJoined(lead: string, words: seq<string>, gaps: seq<string>, trail: string)
    requires AllSpace(lead) && AllSpace(trail)
    requires |words| >= 1 && |gaps| == |words| - 1
    requires forall i :: 0 <= i < |words| ==> IsWord(words[i])
    requires forall i :: 0 <= i < |gaps| ==> gaps[i] != [] && AllSpace(gaps[i])
    ensures WsSplit(lead + Joined(words, gaps) + trail) == words
  {
    JoinedEnds(words, gaps);
    TrimPadded(lead, Joined(words, gaps), trail);
    TokensOfJoined(words, gaps);
  }

  /** A single word splits into itself. */
  lemma WsSplitOneWord(x: string)
    requires IsWord(x)
    ensures WsSplit(x) == [x]
  {
    TrimPadded([], x, []);
    assert [] + x + [] == x;
    TokensOfWord(x);
  }

  /** `s.indexOf("\n")`, with `|s|` standing for -1: the end of the first line. */
  function LineEnd(s: string): (i: nat)
    ensures i <= |s|
  {
    if s == [] || s[0] == '\n' then 0 else 1 + LineEnd(s[1..])
  }

  /** The first line feed of `s` is at `LineEnd(s)`, if there is one. */
  lemma {:induction false} LineEndSpec(s: string)
    ensures var i := LineEnd(s); '\n' !in s[..i] && (i < |s| ==> s[i] == '\n')
  {
    if s != [] && s[0] != '\n' {
      LineEndSpec(s[1..]);
      var i := LineEnd(s);
      assert s[..i] == [s[0]] + s[1..][..i - 1];
    }
  }

  /** Drops one carriage return from the end of a line, the optional `\r` of `/\r?\n/`. */
  function StripCr(line: string): string {
    if line != [] && line[|line| - 1] == '\r' then line[..|line| - 1] else line
  }

  /** `s.split(/\r?\n/)`: the lines of `s`. */
  function SplitLines(s: string): (r: seq<string>)
    ensures |r| >= 1
    decreases |s|
  {
    var i := LineEnd(s);
    if i == |s| then [s]
    else [StripCr(s[..i])] + SplitLines(s[i + 1..])
  }

  /** No line of the split holds a line feed. */
  lemma {:induction false} SplitLinesSpec(s: string)
    ensures forall j :: 0 <= j < |SplitLines(s)| ==> '\n' !in SplitLines(s)[j]
    decreases |s|
  {
    var i := LineEnd(s);
    LineEndSpec(s);
    if i < |s| {
      SplitLinesSpec(s[i + 1..]);
      var line := s[..i];
      assert '\n' !in StripCr(line) by {
        if line != [] && line[|line| - 1] == '\r' {
          assert forall c :: c in line[..|line| - 1] ==> c in line;
        }
      }
    }
  }

  /** The text up to the first line feed is the first line; a line feed ends it. */
  lemma SplitLinesFirst(line: string, rest: string)
    requires '\n' !in line
    ensures SplitLines(line + "\n" + rest) == [StripCr(line)] + SplitLines(rest)
  {
    var s := line + "\n" + rest;
    LineEndSpec(s);
    assert s[|line|] == '\n';
    assert forall k :: 0 <= k < |line| ==> s[k] == line[k];
    assert LineEnd(s) == |line|;
    assert s[..|line|] == line;
    assert s[|line| + 1..] == rest;
  }

  /** A text without a line feed is a single line. */
  lemma SplitLinesSingle(line: string)
    requires '\n' !in line
    ensures SplitLines(line) == [line]
  {
    LineEndSpec(line);
  }

  predicate IsDigit(c: char) {
    '0' <= c <= '9'
  }

  predicate AllDigits(s: string) {
    forall k :: 0 <= k < |s| ==> IsDigit(s[k])
  }

  function DigitsValue(s: string): nat
    requires AllDigits(s)
  {
    if s == [] then 0 else DigitsValue(s[..|s| - 1]) * 10 + (s[|s| - 1] as int - '0' as int)
  }

  /**
   * JavaScript's `Number(text)`, restricted to decimal integers: surrounding
   * whitespace is ignored, a blank text is 0, and anything else but an
   * optionally signed run of digits gives `None` (NaN).
   */
  function ToNumber(text: string): Option<int> {
    NumberOfTrimmed(Trim(text))
  }

  /** `Number()` of text that has already been trimmed. */
  function NumberOfTrimmed(t: string): Option<int> {
    if t == [] then Some(0)
    else if t[0] == '-' || t[0] == '+' then
      var d := t[1..];
      if d != [] && AllDigits(d) then
        var v: int := DigitsValue(d);
        Some(if t[0] == '-' then -v else v)
      else None
    else if AllDigits(t) then Some(DigitsValue(t))
    else None
  }

  /**
   * A character that is neither a digit nor a leading sign makes the text
   * NaN, as `Number("max")` or `Number("12abc")` is.
   */
  lemma ToNumberRejectsStray(t: string, k: int)
    requires 0 <= k < |Trim(t)| && !IsDigit(Trim(t)[k])
    requires k > 0 || (Trim(t)[0] != '-' && Trim(t)[0] != '+')
    ensures ToNumber(t).None?
  {
    var u := Trim(t);
    if u[0] == '-' || u[0] == '+' {
      assert u[1..][k - 1] == u[k];
    }
  }

  /** A sign without digits is NaN. */
  lemma ToNumberRejectsLoneSign(t: string)
    requires Trim(t) == "-" || Trim(t) == "+"
    ensures ToNumber(t).None?
  {
    assert Trim(t)[1..] == [];
  }

  /** The decimal digits of `n`, most significant first, without leading zeros. */
  function NatToString(n: nat): (s: string)
    ensures s != [] && AllDigits(s)
  {
    if n < 10 then [('0' as int + n) as char]
    else NatToString(n / 10) + [('0' as int + n % 10) as char]
  }

  /** The decimal text of an integer, as the kernel and `String(n)` write it. */
  function IntToString(n: int): (s: string)
    ensures IsWord(s) && s[0] != 'm'
  {
    if n < 0 then "-" + NatToString(-n) else NatToString(n)
  }

  lemma {:induction false} NatToStringValue(n: nat)
    ensures DigitsValue(NatToString(n)) == n
  {
    if n >= 10 {
      var s := NatToString(n);
      assert s[..|s| - 1] == NatToString(n / 10);
      NatToStringValue(n / 10);
    }
  }

  /** The decimal text of `n` reads back as `n`. */
  lemma NumberOfIntText(n: int)
    ensures NumberOfTrimmed(IntToString(n)) == Some(n)
  {
    var s := IntToString(n);
    if n < 0 {
      NatToStringValue(-n);
      assert s[1..] == NatToString(-n);
    } else {
      NatToStringValue(n);
    }
  }

  /** Reading back the decimal text of `n`, padded by any whitespace, gives `n`. */
  lemma ToNumberOfDecimal(n: int, w1: string, w2: string)
    requires AllSpace(w1) && AllSpace(w2)
    ensures ToNumber(w1 + IntToString(n) + w2) == Some(n)
  {
    TrimPadded(w1, IntToString(n), w2);
    NumberOfIntText(n);
  }

  /** The decimal text of `n` alone reads back as `n`. */
  lemma ToNumberOfInt(n: int)
    ensures ToNumber(IntToString(n)) == Some(n)
  {
    ToNumberOfDecimal(n, "", "");
    assert "" + IntToString(n) + "" == IntToString(n);
  }
}
