/** Characters, case mapping, tokenising and number text — the building blocks that
    app.py takes from Python's `str` methods and its `re` character classes. */
module Text {
  import opened Util

  // ---------------------------------------------------------------- characters

  /** `str.isspace()`: the characters that `\s` matches, that `\S` excludes and that
      `str.strip()` removes. */
  predicate IsSpace(c: char) {
    ('\t' <= c <= '\r') || ('\U{1C}' <= c <= ' ') || c == '\U{85}' || c == '\U{A0}'
    || c == '\U{1680}' || ('\U{2000}' <= c <= '\U{200A}') || c == '\U{2028}'
    || c == '\U{2029}' || c == '\U{202F}' || c == '\U{205F}' || c == '\U{3000}'
  }

  /** The line boundaries at which `str.splitlines()` cuts. */
  predicate IsLineBreak(c: char) {
    ('\n' <= c <= '\r') || ('\U{1C}' <= c <= '\U{1E}') || c == '\U{85}'
    || c == '\U{2028}' || c == '\U{2029}'
  }

  /** `\d`, restricted to ASCII digits. */
  predicate IsDigit(c: char) {
    '0' <= c <= '9'
  }

  /** `[A-Za-zÄÖÜäöüß]`, the first character of a name or type field. */
  predicate IsLetter(c: char) {
    ('A' <= c <= 'Z') || ('a' <= c <= 'z')
    || c == 'Ä' || c == 'Ö' || c == 'Ü' || c == 'ä' || c == 'ö' || c == 'ü' || c == 'ß'
  }

  /** `[\wÄÖÜäöüß\.-]`, with `\w` restricted to ASCII letters, digits and `_`. */
  predicate IsFieldChar(c: char) {
    IsLetter(c) || IsDigit(c) || c == '_' || c == '.' || c == '-'
  }

  /** The lower-case letters the upper-casing below changes: "a" to "z", "ä", "ö", "ü". */
  predicate IsLower(c: char) {
    'a' <= c <= 'z' || c == 'ä' || c == 'ö' || c == 'ü'
  }

  /** `str.upper()` on one character, for ASCII letters and ä, ö, ü; every other
      character is left as it is. Each of these letters sits 32 code points above
      its capital. */
  function UpperChar(c: char): (u: char)
    ensures !IsLower(u)
    ensures IsLower(c) ==> u as int == c as int - 32
    ensures !IsLower(c) ==> u == c
    ensures IsSpace(u) <==> IsSpace(c)
    ensures IsDigit(u) <==> IsDigit(c)
  {
    if 'a' <= c <= 'z' then (c as int - 32) as char
    else if c == 'ä' then 'Ä'
    else if c == 'ö' then 'Ö'
    else if c == 'ü' then 'Ü'
    else c
  }

  // ---------------------------------------------------------------- strings

  /** `s.upper()`: every lower-case letter is replaced by its capital, every other
      character is kept, position by position. */
  function Upper(s: string): (r: string)
    ensures |r| == |s|
    ensures forall i :: 0 <= i < |s| ==> r[i] == UpperChar(s[i])
    ensures forall i :: 0 <= i < |r| ==> !IsLower(r[i])
    ensures forall i :: 0 <= i < |s| && !IsLower(s[i]) ==> r[i] == s[i]
  {
    seq(|s|, i requires 0 <= i < |s| => UpperChar(s[i]))
  }

  /** Upper-casing twice changes nothing more. */
  lemma UpperIdempotent(s: string)
    ensures Upper(Upper(s)) == Upper(s)
  {
    var u := Upper(s);
    assert forall i :: 0 <= i < |u| ==> Upper(u)[i] == u[i];
  }

  /** The test that keeps every character other than `c`. */
  function Other(c: char): char -> bool {
    x => x != c
  }

  /** `s.replace(c, "")`. */
  function Without(s: string, c: char): (r: string)
    ensures |r| <= |s|
    ensures c !in r
  {
    if s == [] then [] else (if s[0] == c then [] else [s[0]]) + Without(s[1..], c)
  }

  /** Every character other than `c` is kept, in order. */
  lemma {:induction false} WithoutIsFilter(s: string, c: char)
    ensures Without(s, c) == Filter(s, Other(c))
  {
    if s != [] {
      assert [s[0]] + s[1..] == s;
      FilterConcat([s[0]], s[1..], Other(c));
      FilterAppend([], s[0], Other(c));
      WithoutIsFilter(s[1..], c);
    }
  }

  /** Removing a character works piece by piece. */
  lemma WithoutConcat(a: string, b: string, c: char)
    ensures Without(a + b, c) == Without(a, c) + Without(b, c)
  {
    WithoutIsFilter(a + b, c);
    WithoutIsFilter(a, c);
    WithoutIsFilter(b, c);
    FilterConcat(a, b, Other(c));
  }

  /** A single character disappears exactly when it is the one removed. */
  lemma WithoutChar(x: char, c: char)
    ensures Without([x], c) == (if x == c then [] else [x])
  {
    assert [x][1..] == [];
  }

  lemma {:induction false} WithoutAbsent(s: string, c: char)
    requires c !in s
    ensures Without(s, c) == s
  {
    if s != [] {
      WithoutAbsent(s[1..], c);
      assert [s[0]] + s[1..] == s;
    }
  }

  /** `.replace("Ä", "AE").replace("Ö", "OE").replace("Ü", "UE")`. */
  function FoldUmlauts(s: string): (r: string)
    ensures 'Ä' !in r && 'Ö' !in r && 'Ü' !in r
  {
    if s == [] then []
    else
      (if s[0] == 'Ä' then "AE" else if s[0] == 'Ö' then "OE" else if s[0] == 'Ü' then "UE" else [s[0]])
      + FoldUmlauts(s[1..])
  }

  /** Folding works piece by piece. */
  lemma {:induction false} FoldUmlautsConcat(a: string, b: string)
    ensures FoldUmlauts(a + b) == FoldUmlauts(a) + FoldUmlauts(b)
  {
    if a == [] {
      assert a + b == b;
    } else {
      var c, t := a[0], a[1..];
      assert a == [c] + t && a + b == [c] + (t + b);
      calc {
        FoldUmlauts(a + b);
        == { FoldUmlautsCons(c, t + b); }
        FoldUmlauts([c]) + FoldUmlauts(t + b);
        == { FoldUmlautsConcat(t, b); }
        FoldUmlauts([c]) + (FoldUmlauts(t) + FoldUmlauts(b));
        ==
        (FoldUmlauts([c]) + FoldUmlauts(t)) + FoldUmlauts(b);
        == { FoldUmlautsCons(c, t); }
        FoldUmlauts(a) + FoldUmlauts(b);
      }
    }
  }

  lemma FoldUmlautsCons(c: char, u: string)
    ensures FoldUmlauts([c] + u) == FoldUmlauts([c]) + FoldUmlauts(u)
  {
    assert ([c] + u)[1..] == u && [c][1..] == [];
  }

  /** Each umlaut becomes its two-letter spelling; any other character is kept. */
  lemma FoldUmlautsChar(x: char)
    ensures FoldUmlauts("Ä") == "AE" && FoldUmlauts("Ö") == "OE" && FoldUmlauts("Ü") == "UE"
    ensures x != 'Ä' && x != 'Ö' && x != 'Ü' ==> FoldUmlauts([x]) == [x]
  {
    assert "Ä"[1..] == [] && "Ö"[1..] == [] && "Ü"[1..] == [] && [x][1..] == [];
  }

  lemma {:induction false} FoldWithoutUmlauts(s: string)
    requires 'Ä' !in s && 'Ö' !in s && 'Ü' !in s
    ensures FoldUmlauts(s) == s
  {
    if s != [] {
      FoldWithoutUmlauts(s[1..]);
      assert [s[0]] + s[1..] == s;
    }
  }
  /** Folding a string with one "Ä" between two umlaut-free runs spells it "AE". */
  lemma FoldAroundAE(a: string, b: string)
    requires 'Ä' !in a && 'Ö' !in a && 'Ü' !in a
    requires 'Ä' !in b && 'Ö' !in b && 'Ü' !in b
    ensures FoldUmlauts(a + "Ä" + b) == a + "AE" + b
  {
    FoldUmlautsConcat(a + "Ä", b);
    FoldUmlautsConcat(a, "Ä");
    FoldUmlautsChar('Ä');
    FoldWithoutUmlauts(a);
    FoldWithoutUmlauts(b);
  }

  predicate StartsWith(s: string, prefix: string) {
    |prefix| <= |s| && s[..|prefix|] == prefix
  }

  predicate AllSpace(s: string) {
    forall i :: 0 <= i < |s| ==> IsSpace(s[i])
  }

  predicate AllDigits(s: string) {
    forall i :: 0 <= i < |s| ==> IsDigit(s[i])
  }

  /** A token as `\S+` finds it: non-empty, without whitespace. */
  predicate IsToken(s: string) {
    |s| > 0 && forall i :: 0 <= i < |s| ==> !IsSpace(s[i])
  }

  // ---------------------------------------------------------------- strip

  function TrimStart(s: string): (r: string)
    ensures |r| <= |s| && r == s[|s| - |r|..]
    ensures r == [] || !IsSpace(r[0])
    ensures forall i :: 0 <= i < |s| - |r| ==> IsSpace(s[i])
  {
    if s != [] && IsSpace(s[0]) then
      var r := TrimStart(s[1..]);
      assert s[1..][|s[1..]| - |r|..] == s[|s| - |r|..];
      r
    else s
  }

  function TrimEnd(s: string): (r: string)
    ensures |r| <= |s| && r == s[..|r|]
    ensures r == [] || !IsSpace(r[|r| - 1])
    ensures forall i :: |r| <= i < |s| ==> IsSpace(s[i])
  {
    if s != [] && IsSpace(s[|s| - 1]) then TrimEnd(s[..|s| - 1]) else s
  }

  /** `str.strip()`: neither end of the result is whitespace. */
  function Strip(s: string): (r: string)
    ensures |r| <= |s|
    ensures r == [] || (!IsSpace(r[0]) && !IsSpace(r[|r| - 1]))
  {
    TrimEnd(TrimStart(s))
  }

  /** `str.strip()` keeps one contiguous slice of its input and removes only
      whitespace before and after it. */
  lemma StripRemovesSpace(s: string) returns (a: nat, b: nat)
    ensures a <= b <= |s| && Strip(s) == s[a..b]
    ensures forall i :: 0 <= i < a ==> IsSpace(s[i])
    ensures forall i :: b <= i < |s| ==> IsSpace(s[i])
  {
    var t := TrimStart(s);
    var r := TrimEnd(t);
    SliceOfSuffix(s, t, r);
    a := |s| - |t|;
    b := a + |r|;
  }

  /** A prefix of a suffix is a slice; what the prefix leaves of the suffix is what
      the whole leaves after the slice. */
  lemma SliceOfSuffix(s: string, t: string, r: string)
    requires |t| <= |s| && t == s[|s| - |t|..]
    requires |r| <= |t| && r == t[..|r|]
    requires forall i :: |r| <= i < |t| ==> IsSpace(t[i])
    ensures s[|s| - |t|..|s| - |t| + |r|] == r
    ensures forall i :: |s| - |t| + |r| <= i < |s| ==> IsSpace(s[i])
  {
    var a := |s| - |t|;
    forall i | a + |r| <= i < |s|
      ensures IsSpace(s[i])
    {
      assert s[i] == t[i - a];
    }
  }

  lemma AllSpaceStrip(s: string)
    requires AllSpace(s)
    ensures Strip(s) == []
  {
  }

  // ---------------------------------------------------------------- lines

  /** `str.splitlines()`, cutting at every line boundary. It differs from Python only
      by empty pieces (for "", a trailing boundary, or the two characters of "\r\n"),
      which every caller drops together with the other blank lines. */
  function SplitLines(s: string): (r: seq<string>)
    ensures |r| >= 1
  {
    if s == [] then [[]]
    else
      var rest := SplitLines(s[1..]);
      if IsLineBreak(s[0]) then [[]] + rest else [[s[0]] + rest[0]] + rest[1..]
  }

  /** The pieces hold no line boundary, and there is one more of them than there
      are boundaries. */
  lemma {:induction false} SplitLinesPieces(s: string)
    ensures |SplitLines(s)| == |Filter(s, IsLineBreak)| + 1
    ensures forall k :: 0 <= k < |SplitLines(s)| ==> NoBreak(SplitLines(s)[k])
  {
    if s != [] {
      assert [s[0]] + s[1..] == s;
      FilterConcat([s[0]], s[1..], IsLineBreak);
      FilterAppend([], s[0], IsLineBreak);
      SplitLinesPieces(s[1..]);
    }
  }

  /** A piece of text without a line boundary. */
  predicate NoBreak(l: string) {
    forall j :: 0 <= j < |l| ==> !IsLineBreak(l[j])
  }

  /** A text starting with a line boundary starts with an empty line. */
  lemma SplitLinesBreakFirst(x: char, t: string)
    requires IsLineBreak(x)
    ensures SplitLines([x] + t) == [[]] + SplitLines(t)
  {
    assert ([x] + t)[1..] == t;
  }

  /** Any other first character opens the first line. */
  lemma SplitLinesCharFirst(x: char, t: string)
    requires !IsLineBreak(x)
    ensures SplitLines([x] + t) == [[x] + SplitLines(t)[0]] + SplitLines(t)[1..]
  {
    assert ([x] + t)[1..] == t;
  }

  /** The induction step of `SplitLinesAround`: when the lines of `u` are the lines
      of `t` followed by `rb`, the same holds after putting `c` in front of both. */
  lemma SplitLinesAroundStep(c: char, t: string, u: string, rb: seq<string>)
    requires SplitLines(u) == SplitLines(t) + rb
    ensures SplitLines([c] + u) == SplitLines([c] + t) + rb
  {
    if IsLineBreak(c) {
      SplitLinesStepBreak(c, t, u, rb);
    } else {
      SplitLinesStepChar(c, t, u, rb);
    }
  }

  /** `SplitLinesAroundStep` when `c` is a line boundary. */
  lemma SplitLinesStepBreak(c: char, t: string, u: string, rb: seq<string>)
    requires IsLineBreak(c)
    requires SplitLines(u) == SplitLines(t) + rb
    ensures SplitLines([c] + u) == SplitLines([c] + t) + rb
  {
    var e: string := [];
    calc {
      SplitLines([c] + u);
      == { SplitLinesBreakFirst(c, u); }
      [e] + (SplitLines(t) + rb);
      == { ConsConcat(e, SplitLines(t), rb); }
      ([e] + SplitLines(t)) + rb;
      == { SplitLinesBreakFirst(c, t); }
      SplitLines([c] + t) + rb;
    }
  }

  lemma ConsConcat<T>(x: T, a: seq<T>, b: seq<T>)
    ensures [x] + (a + b) == ([x] + a) + b
  {
  }

  /** `SplitLinesAroundStep` for any other `c`. */
  lemma SplitLinesStepChar(c: char, t: string, u: string, rb: seq<string>)
    requires !IsLineBreak(c)
    requires SplitLines(u) == SplitLines(t) + rb
    ensures SplitLines([c] + u) == SplitLines([c] + t) + rb
  {
    var ra := SplitLines(t);
    SplitLinesCharFirst(c, u);
    SplitLinesCharFirst(c, t);
    ExtendFirst(c, ra, rb);
  }

  /** Extending the first line of `ra` is extending the first line of `ra + rb`. */
  lemma ExtendFirst(c: char, ra: seq<string>, rb: seq<string>)
    requires |ra| >= 1
    ensures [[c] + (ra + rb)[0]] + (ra + rb)[1..] == ([[c] + ra[0]] + ra[1..]) + rb
  {
    assert (ra + rb)[0] == ra[0] && (ra + rb)[1..] == ra[1..] + rb;
  }

  /** Text cut at a line boundary gives the lines before it followed by the lines
      after it. */
  lemma {:induction false} SplitLinesAround(a: string, x: char, b: string)
    requires IsLineBreak(x)
    ensures SplitLines(a + [x] + b) == SplitLines(a) + SplitLines(b)
  {
    if a == [] {
      assert a + [x] + b == [x] + b;
      SplitLinesBreakFirst(x, b);
    } else {
      assert a == [a[0]] + a[1..] && a + [x] + b == [a[0]] + (a[1..] + [x] + b);
      SplitLinesAround(a[1..], x, b);
      SplitLinesAroundStep(a[0], a[1..], a[1..] + [x] + b, SplitLines(b));
    }
  }

  lemma {:induction false} SplitLinesWithoutBreak(s: string)
    requires forall i :: 0 <= i < |s| ==> !IsLineBreak(s[i])
    ensures SplitLines(s) == [s]
  {
    if s != [] {
      SplitLinesWithoutBreak(s[1..]);
      assert [s[0]] + s[1..] == s;
    }
  }

  lemma {:induction false} SplitLinesAllSpace(s: string)
    requires AllSpace(s)
    ensures forall k :: 0 <= k < |SplitLines(s)| ==> AllSpace(SplitLines(s)[k])
  {
    if s != [] {
      SplitLinesAllSpace(s[1..]);
    }
  }

  // ---------------------------------------------------------------- tokens

  /** Length of the longest prefix without whitespace. */
  function WordLen(s: string): (n: nat)
    ensures n <= |s|
    ensures forall i :: 0 <= i < n ==> !IsSpace(s[i])
    ensures n < |s| ==> IsSpace(s[n])
  {
    if s == [] || IsSpace(s[0]) then 0 else 1 + WordLen(s[1..])
  }

  /** `re.findall(r'\S+', s)`: the maximal runs of non-whitespace, in order. */
  function Tokens(s: string): (ts: seq<string>)
    decreases |s|
    ensures forall k :: 0 <= k < |ts| ==> IsToken(ts[k])
  {
    var t := TrimStart(s);
    if t == [] then []
    else
      var n := WordLen(t);
      var rest := Tokens(t[n..]);
      assert n > 0;
      ConsTokens(t[..n], rest);
      [t[..n]] + rest
  }

  lemma ConsTokens(w: string, ws: seq<string>)
    requires IsToken(w) && forall k :: 0 <= k < |ws| ==> IsToken(ws[k])
    ensures forall k :: 0 <= k < |[w] + ws| ==> IsToken(([w] + ws)[k])
  {
    forall k | 0 <= k < |[w] + ws|
      ensures IsToken(([w] + ws)[k])
    {
      if k > 0 {
        assert ([w] + ws)[k] == ws[k - 1];
      }
    }
  }

  lemma AllSpaceTokens(s: string)
    requires AllSpace(s)
    ensures Tokens(s) == []
  {
  }

  /** Words joined by single spaces, the inverse of `Tokens` on tokens. */
  function Join(ws: seq<string>): string {
    if |ws| == 0 then ""
    else if |ws| == 1 then ws[0]
    else ws[0] + ([' '] + Join(ws[1..]))
  }

  lemma {:induction false} WordLenOfWord(w: string, rest: string)
    requires forall i :: 0 <= i < |w| ==> !IsSpace(w[i])
    requires rest == [] || IsSpace(rest[0])
    ensures WordLen(w + rest) == |w|
  {
    if w != [] {
      assert (w + rest)[1..] == w[1..] + rest;
      WordLenOfWord(w[1..], rest);
    }
  }

  lemma {:induction false} JoinEnds(ws: seq<string>)
    requires |ws| > 0
    requires forall k :: 0 <= k < |ws| ==> IsToken(ws[k])
    ensures |Join(ws)| > 0
    ensures IsToken(ws[0]) && Join(ws)[0] == ws[0][0]
    ensures IsToken(ws[|ws| - 1]) && Join(ws)[|Join(ws)| - 1] == ws[|ws| - 1][|ws[|ws| - 1]| - 1]
  {
    if |ws| > 1 {
      JoinEnds(ws[1..]);
    }
  }

  lemma {:induction false} JoinWithoutBreak(ws: seq<string>)
    requires forall k :: 0 <= k < |ws| ==> IsToken(ws[k])
    ensures forall i :: 0 <= i < |Join(ws)| ==> !IsLineBreak(Join(ws)[i])
  {
    if |ws| > 1 {
      JoinWithoutBreak(ws[1..]);
      var w, j := ws[0], Join(ws[1..]);
      assert Join(ws) == w + " " + j;
      forall i | 0 <= i < |Join(ws)| ensures !IsLineBreak(Join(ws)[i]) {
        if i < |w| {
          assert Join(ws)[i] == w[i];
        } else if i > |w| {
          assert Join(ws)[i] == j[i - |w| - 1];
        }
      }
    } else if |ws| == 1 {
      assert Join(ws) == ws[0];
    }
  }

  lemma TokensSkipSpace(c: char, s: string)
    requires IsSpace(c)
    ensures Tokens([c] + s) == Tokens(s)
  {
    assert TrimStart([c] + s) == TrimStart(s) by {
      assert ([c] + s)[1..] == s;
    }
    TokensOfTrim([c] + s, s);
  }

  /** The tokens depend only on the text after its leading whitespace. */
  lemma TokensOfTrim(s1: string, s2: string)
    requires TrimStart(s1) == TrimStart(s2)
    ensures Tokens(s1) == Tokens(s2)
  {
  }

  lemma TokensOfWordThen(w: string, rest: string)
    requires IsToken(w)
    requires rest == [] || IsSpace(rest[0])
    ensures Tokens(w + rest) == [w] + Tokens(rest)
  {
    var s := w + rest;
    assert TrimStart(s) == s;
    WordLenOfWord(w, rest);
    assert s[..|w|] == w;
    assert s[|w|..] == rest;
  }

  /** Tokenising undoes joining: `Tokens(Join(ws)) == ws` for any list of tokens. */
  lemma {:induction false} TokensOfJoin(ws: seq<string>)
    requires forall k :: 0 <= k < |ws| ==> IsToken(ws[k])
    ensures Tokens(Join(ws)) == ws
  {
    if |ws| == 1 {
      assert ws == [ws[0]];
      TokensOfOneWord(ws[0]);
    } else if |ws| > 1 {
      var w, rest := ws[0], ws[1..];
      assert ws == [w] + rest;
      TokensOfJoin(rest);
      TokensOfJoinStep(w, rest);
    }
  }

  lemma TokensOfOneWord(w: string)
    requires IsToken(w)
    ensures Tokens(Join([w])) == [w]
  {
    assert Join([w]) == w;
    TokensOfWordThen(w, []);
    assert w + [] == w;
  }

  lemma JoinCons(w: string, ws: seq<string>)
    requires |ws| > 0
    ensures Join([w] + ws) == w + ([' '] + Join(ws))
  {
    assert ([w] + ws)[1..] == ws;
  }

  lemma TokensOfJoinStep(w: string, ws: seq<string>)
    requires IsToken(w) && |ws| > 0
    ensures Tokens(Join([w] + ws)) == [w] + Tokens(Join(ws))
  {
    var j := Join(ws);
    JoinCons(w, ws);
    TokensOfWordThen(w, [' '] + j);
    TokensSkipSpace(' ', j);
  }

  /** A line made of single-space separated tokens survives `strip` and
      `splitlines` whole. */
  lemma JoinIsOneLine(ws: seq<string>)
    requires |ws| > 0
    requires forall k :: 0 <= k < |ws| ==> IsToken(ws[k])
    ensures SplitLines(Join(ws)) == [Join(ws)]
    ensures Strip(Join(ws)) == Join(ws)
  {
    JoinEnds(ws);
    JoinWithoutBreak(ws);
    SplitLinesWithoutBreak(Join(ws));
  }

  // ---------------------------------------------------------------- numbers

  function DigitChar(d: nat): (c: char)
    requires d < 10
    ensures IsDigit(c)
  {
    ('0' as int + d) as char
  }

  /** `int(s)` for a string of ASCII digits (0 for the empty string). */
  function DigitsValue(s: string): nat
    requires AllDigits(s)
  {
    if s == [] then 0 else DigitsValue(s[..|s| - 1]) * 10 + (s[|s| - 1] as int - '0' as int)
  }

  function Pow10(k: nat): nat {
    if k == 0 then 1 else 10 * Pow10(k - 1)
  }

  /** Digits written after others shift them up by one power of ten each. */
  lemma {:induction false} DigitsValueConcat(x: string, y: string)
    requires AllDigits(x) && AllDigits(y)
    ensures AllDigits(x + y)
    ensures DigitsValue(x + y) == DigitsValue(x) * Pow10(|y|) + DigitsValue(y)
  {
    if y == [] {
      assert x + y == x;
    } else {
      var init := y[..|y| - 1];
      DigitsValueConcat(x, init);
      assert (x + y)[..|x + y| - 1] == x + init;
      assert (x + y)[|x + y| - 1] == y[|y| - 1];
      ShiftDigit(DigitsValue(x), Pow10(|init|), DigitsValue(init), y[|y| - 1] as int - '0' as int);
    }
  }

  lemma ShiftDigit(v: int, p: int, w: int, d: int)
    ensures (v * p + w) * 10 + d == v * (10 * p) + (w * 10 + d)
  {
  }

  /** `str(n)` for a natural number. */
  function NatToString(n: nat): (s: string)
    ensures |s| > 0 && AllDigits(s)
  {
    if n < 10 then [DigitChar(n)] else NatToString(n / 10) + [DigitChar(n % 10)]
  }

  lemma {:induction false} NatToStringRoundTrip(n: nat)
    ensures DigitsValue(NatToString(n)) == n
  {
    var s := NatToString(n);
    if n >= 10 {
      NatToStringRoundTrip(n / 10);
      assert s[..|s| - 1] == NatToString(n / 10);
    } else {
      assert s[..|s| - 1] == [];
    }
  }

  /** `int(re.sub(r'\D', '', s))`: the value of the digits of `s`, non-digits removed. */
  function CountValue(s: string): nat {
    DigitsValue(Filter(s, IsDigit))
  }

  lemma CountValueOfDigits(s: string)
    requires AllDigits(s)
    ensures CountValue(s) == DigitsValue(s)
  {
    FilterKeepsAll(s, IsDigit);
  }
}
