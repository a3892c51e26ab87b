/** The block parser read against the layout of the report it is written for:
    column headings, `count name` pairs, the header, then one type label per pair. */
module BlockLayout {
  import opened Util
  import opened Text
  import opened Records
  import opened BlockParser

  /** A token that no header test can accept: its first character is neither an
      "R" in either case nor one of the separators the normalisation removes. */
  predicate PlainStart(t: string) {
    |t| > 0 && UpperChar(t[0]) != 'R' && t[0] != '_' && t[0] != '-'
  }

  /** A plain token never normalises to a header spelling. */
  lemma PlainNorm(t: string)
    requires PlainStart(t)
    ensures Norm(t)[0] == UpperChar(t[0]) && !IsHeaderNorm(Norm(t))
  {
    assert Upper(t)[0] == UpperChar(t[0]);
    assert Without(Upper(t), '_')[0] == UpperChar(t[0]);
  }

  lemma NotHeaderAt(toks: seq<string>, i: nat)
    requires i < |toks| && PlainStart(toks[i])
    ensures !Matches(FirstLoop, toks, i) && !Matches(PrefixFallback, toks, i)
  {
    PlainNorm(toks[i]);
  }

  /** The two separated header words normalise to "RDID". */
  lemma SeparatedHeaderNorms()
    ensures Without(Without("RD_ID", '_'), '-') == "RDID"
    ensures Without(Without("RD-ID", '_'), '-') == "RDID"
  {
    UnderscoreDropped();
    DashDropped();
    WithoutAbsent("RDID", '-');
    WithoutAbsent("RD-ID", '_');
  }

  lemma UnderscoreDropped()
    ensures Without("RD_ID", '_') == "RDID"
  {
  }

  lemma DashDropped()
    ensures Without("RD-ID", '-') == "RDID"
  {
  }

  /** A token that does not normalise to a header spelling, followed by a token that
      does not start with "ID", passes none of the main loop's tests: the other
      tests all need the next token to start with "ID", or a normalised "RD". */
  lemma NameNotHeader(toks: seq<string>, i: nat)
    requires i < |toks| && !IsHeaderNorm(Norm(toks[i]))
    requires i + 1 < |toks| ==> !StartsWith(Upper(toks[i + 1]), "ID")
    ensures !Matches(FirstLoop, toks, i)
  {
    SeparatedHeaderNorms();
    assert Upper(toks[i]) != "RD_ID" && Upper(toks[i]) != "RD-ID";
  }

  /** The normalisation keeps a first character that is no separator. */
  lemma NormHead(u: string)
    requires |u| > 0 && Upper(u)[0] != '_' && Upper(u)[0] != '-'
    ensures |Norm(u)| > 0 && Norm(u)[0] == Upper(u)[0]
  {
    assert Without(Upper(u), '_')[0] == Upper(u)[0];
  }

  /** A header spelling does not start with "ID". */
  lemma HeaderNoIdStart(u: string)
    requires IsHeaderNorm(Norm(u))
    ensures !StartsWith(Upper(u), "ID")
  {
    if |u| > 0 && Upper(u)[0] != '_' && Upper(u)[0] != '-' {
      NormHead(u);
    }
  }

  /** A number does not start with "ID". */
  lemma NumberNoIdStart(u: string)
    requires |u| > 0 && IsDigit(u[0])
    ensures !StartsWith(Upper(u), "ID")
  {
    assert Upper(u)[0] == UpperChar(u[0]);
  }

  /** When no token before `h` passes a header test and token `h` is a header
      spelling, the header is found at `h`. */
  lemma HeaderAfterPlain(toks: seq<string>, h: nat)
    requires h < |toks| && IsHeaderNorm(Norm(toks[h]))
    requires forall i :: 0 <= i < h ==> !Matches(FirstLoop, toks, i)
    ensures HeaderIndex(toks) == Some(h)
  {
    assert Matches(FirstLoop, toks, h);
  }

  lemma DigitsPlain(s: string)
    requires |s| > 0 && AllDigits(s)
    ensures PlainStart(s) && NotColumnHead(s)
  {
    assert IsDigit(s[0]);
    assert Upper(s)[0] == s[0];
    assert FoldUmlauts(Upper(s))[0] == s[0];
  }

  lemma ColumnHeadPlain(t: string)
    requires IsColumnHead(t)
    ensures PlainStart(t)
  {
    var u := Upper(t);
    assert |FoldUmlauts(u)| > 0;
    assert u[0] == UpperChar(t[0]);
    assert FoldUmlauts(u)[0] == (if u[0] == 'Ä' then 'A' else if u[0] == 'Ö' then 'O' else if u[0] == 'Ü' then 'U' else u[0]);
  }

  /** An employee name the parser keeps as a name: it is no column heading and does
      not normalise to a header spelling. It may start with "R" or even "RD". */
  predicate NameLike(t: string) {
    NotColumnHead(t) && !IsHeaderNorm(Norm(t))
  }

  /** What the report layout asks of its parts: headings are column headings, and
      names are name-like. */
  predicate LayoutParts(heads: seq<string>, ps: seq<Pair>) {
    && (forall i :: 0 <= i < |heads| ==> IsColumnHead(heads[i]))
    && (forall i :: 0 <= i < |ps| ==> NameLike(ps[i].name))
  }

  /** Token `i` passes no header test when it is plain, or when it does not
      normalise to a header spelling and the next token does not start with "ID". */
  predicate Quiet(toks: seq<string>, i: int)
  {
    && 0 <= i < |toks|
    && (|| PlainStart(toks[i])
        || (!IsHeaderNorm(Norm(toks[i])) && (i + 1 < |toks| ==> !StartsWith(Upper(toks[i + 1]), "ID"))))
  }

  lemma QuietNotHeader(toks: seq<string>, i: nat)
    requires Quiet(toks, i)
    ensures !Matches(FirstLoop, toks, i)
  {
    if PlainStart(toks[i]) {
      NotHeaderAt(toks, i);
    } else {
      NameNotHeader(toks, i);
    }
  }

  /** A number as `str()` writes it: digits only. */
  predicate Number(t: string) {
    |t| > 0 && AllDigits(t)
  }

  /** Token `j` of laid-out pairs is a number, or a name-like token followed by a
      number or by nothing. */
  predicate AltAt(body: seq<string>, j: int) {
    0 <= j < |body| && (Number(body[j]) || (NameLike(body[j]) && (j + 1 < |body| ==> Number(body[j + 1]))))
  }

  /** Laid-out pairs alternate numbers and name-like tokens. */
  predicate Alternating(body: seq<string>) {
    forall j :: 0 <= j < |body| ==> AltAt(body, j)
  }

  /** Prefixing a number and a name-like token keeps the alternation. */
  lemma AlternatingCons(c: string, n: string, rest: seq<string>)
    requires Number(c) && NameLike(n) && Alternating(rest)
    requires rest != [] ==> Number(rest[0])
    ensures Alternating([c, n] + rest)
  {
    var body := [c, n] + rest;
    assert AltAt(body, 0);
    assert AltAt(body, 1);
    forall j | 2 <= j < |body|
      ensures AltAt(body, j)
    {
      assert AltAt(rest, j - 2);
      assert body[j] == rest[j - 2];
      if j + 1 < |body| {
        assert body[j + 1] == rest[j - 1];
      }
    }
  }

  lemma {:induction false} InterleaveAlternates(ps: seq<Pair>)
    requires forall i :: 0 <= i < |ps| ==> NameLike(ps[i].name)
    ensures Alternating(Interleave(ps))
  {
    if ps != [] {
      var rest := Interleave(ps[1..]);
      InterleaveAlternates(ps[1..]);
      if rest != [] {
        assert rest[0] == NatToString(ps[1].count);
      }
      AlternatingCons(NatToString(ps[0].count), ps[0].name, rest);
    }
  }

  lemma HeadAt<T>(a: seq<T>, b: seq<T>, c: seq<T>, i: nat)
    requires i < |a|
    ensures (a + b + c)[i] == a[i]
  {
  }

  lemma MiddleAt<T>(a: seq<T>, b: seq<T>, c: seq<T>, i: nat)
    requires |a| <= i < |a| + |b|
    ensures (a + b + c)[i] == b[i - |a|]
  {
  }

  lemma TailAt<T>(a: seq<T>, b: seq<T>, c: seq<T>, i: nat)
    requires c != [] && i == |a| + |b|
    ensures (a + b + c)[i] == c[0]
  {
  }

  lemma HeadQuiet(heads: seq<string>, body: seq<string>, tail: seq<string>, i: nat)
    requires i < |heads| && IsColumnHead(heads[i])
    ensures Quiet(heads + body + tail, i)
  {
    HeadAt(heads, body, tail, i);
    ColumnHeadPlain(heads[i]);
  }

  lemma NumberQuiet(heads: seq<string>, body: seq<string>, tail: seq<string>, i: nat)
    requires |heads| <= i < |heads| + |body| && Number(body[i - |heads|])
    ensures Quiet(heads + body + tail, i)
  {
    MiddleAt(heads, body, tail, i);
    DigitsPlain(body[i - |heads|]);
  }

  /** What follows a name-like token does not start with "ID": a number, or the
      tail. */
  lemma NextNoId(heads: seq<string>, body: seq<string>, tail: seq<string>, i: nat)
    requires tail != [] && !StartsWith(Upper(tail[0]), "ID")
    requires |heads| <= i < |heads| + |body| && Alternating(body) && !Number(body[i - |heads|])
    ensures !StartsWith(Upper((heads + body + tail)[i + 1]), "ID")
  {
    if i + 1 < |heads| + |body| {
      MiddleAt(heads, body, tail, i + 1);
      assert AltAt(body, i - |heads|);
      NumberNoIdStart(body[i + 1 - |heads|]);
    } else {
      TailAt(heads, body, tail, i + 1);
    }
  }

  lemma NameQuiet(heads: seq<string>, body: seq<string>, tail: seq<string>, i: nat)
    requires tail != [] && !StartsWith(Upper(tail[0]), "ID")
    requires |heads| <= i < |heads| + |body| && Alternating(body) && !Number(body[i - |heads|])
    ensures Quiet(heads + body + tail, i)
  {
    MiddleAt(heads, body, tail, i);
    assert AltAt(body, i - |heads|);
    NextNoId(heads, body, tail, i);
  }

  /** When the tail does not start with "ID", no token of the headings and pairs
      passes a header test. */
  lemma LeftPlain(heads: seq<string>, ps: seq<Pair>, tail: seq<string>)
    requires LayoutParts(heads, ps)
    requires tail != [] && !StartsWith(Upper(tail[0]), "ID")
    ensures forall i :: 0 <= i < |heads| + 2 * |ps| ==> !Matches(FirstLoop, heads + Interleave(ps) + tail, i)
  {
    var body := Interleave(ps);
    InterleaveAlternates(ps);
    forall i | 0 <= i < |heads| + |body|
      ensures !Matches(FirstLoop, heads + body + tail, i)
    {
      if i < |heads| {
        HeadQuiet(heads, body, tail, i);
      } else if Number(body[i - |heads|]) {
        NumberQuiet(heads, body, tail, i);
      } else {
        NameQuiet(heads, body, tail, i);
      }
      QuietNotHeader(heads + body + tail, i);
    }
  }

  /** No token of laid-out pairs is a column heading when no name is one. */
  lemma {:induction false} InterleaveNoHeading(ps: seq<Pair>)
    requires forall i :: 0 <= i < |ps| ==> NotColumnHead(ps[i].name)
    ensures forall j :: 0 <= j < |Interleave(ps)| ==> NotColumnHead(Interleave(ps)[j])
  {
    if ps != [] {
      var rest := Interleave(ps[1..]);
      var body := Interleave(ps);
      InterleaveNoHeading(ps[1..]);
      assert body == [NatToString(ps[0].count), ps[0].name] + rest;
      DigitsPlain(NatToString(ps[0].count));
      forall j | 2 <= j < |body|
        ensures NotColumnHead(body[j])
      {
        assert body[j] == rest[j - 2];
      }
    }
  }

  /** The column headings are dropped from the left segment and every pair token is
      kept. */
  lemma CleanOfLayout(heads: seq<string>, ps: seq<Pair>)
    requires forall i :: 0 <= i < |heads| ==> IsColumnHead(heads[i])
    requires forall i :: 0 <= i < |ps| ==> NotColumnHead(ps[i].name)
    ensures Filter(heads + Interleave(ps), NotColumnHead) == Interleave(ps)
  {
    InterleaveNoHeading(ps);
    FilterDropsPrefix(heads, Interleave(ps), NotColumnHead);
  }

  /** Headings, pairs, then any tail opening with a header spelling: the header is
      found right after the pairs, and the pairs are read back in order. */
  lemma LeftOfLayout(heads: seq<string>, ps: seq<Pair>, tail: seq<string>)
    requires LayoutParts(heads, ps)
    requires tail != [] && IsHeaderNorm(Norm(tail[0]))
    ensures var toks := heads + Interleave(ps) + tail;
      && Pairs(CleanLeft(toks)) == ps
      && RightSegment(toks) == Filter(tail, NotHeaderWord)
  {
    var left := heads + Interleave(ps);
    var toks := left + tail;
    assert toks[..|left|] == left && toks[|left|..] == tail;
    assert toks[|left|] == tail[0];
    HeaderNoIdStart(tail[0]);
    LeftPlain(heads, ps, tail);
    HeaderAfterPlain(toks, |left|);
    CleanOfLayout(heads, ps);
    PairsOfInterleave(ps);
  }

  lemma HeaderWords()
    ensures !NotHeaderWord("RD") && !NotHeaderWord("ID") && NotHeaderWord("RDID")
  {
    assert Upper("RD") == "RD" && Upper("ID") == "ID" && Upper("RDID") == "RDID";
  }

  lemma HeaderSpellings()
    ensures IsHeaderNorm(Norm("RD")) && IsHeaderNorm(Norm("RDID"))
  {
    assert Upper("RD") == "RD" && Upper("RDID") == "RDID";
    WithoutAbsent("RD", '_');
    WithoutAbsent("RD", '-');
    WithoutAbsent("RDID", '_');
    WithoutAbsent("RDID", '-');
  }

  /** A type label as the report prints it: not a header word, not all digits. */
  predicate LabelLike(t: string) {
    NotHeaderWord(t) && HasNonDigit(t)
  }

  lemma HeaderPairWords()
    ensures forall k :: 0 <= k < 2 ==> !NotHeaderWord(["RD", "ID"][k])
  {
    HeaderWords();
  }

  lemma HeaderWordsStripped(labels: seq<string>)
    requires forall i :: 0 <= i < |labels| ==> NotHeaderWord(labels[i])
    ensures Filter(["RD", "ID"] + labels, NotHeaderWord) == labels
  {
    HeaderPairWords();
    FilterDropsPrefix(["RD", "ID"], labels, NotHeaderWord);
  }

  /** The block parser reads back the report layout: headings, `count name` pairs,
      the header "RD ID" and the type labels give each pair the label at its
      position. */
  lemma {:induction false} BlockOfLayout(heads: seq<string>, ps: seq<Pair>, labels: seq<string>)
    requires LayoutParts(heads, ps)
    requires forall i :: 0 <= i < |labels| ==> LabelLike(labels[i])
    ensures BlockFromTokens(heads + Interleave(ps) + (["RD", "ID"] + labels)) == Zip(ps, labels)
  {
    var toks := heads + Interleave(ps) + (["RD", "ID"] + labels);
    HeaderSpellings();
    LeftOfLayout(heads, ps, ["RD", "ID"] + labels);
    HeaderWordsStripped(labels);
    FilterKeepsAll(labels, HasNonDigit);
    assert TypeLabels(toks) == labels;
  }

  /** The same layout with the header printed as the single token "RDID": that token
      is not stripped from the right segment, so it becomes the first type label and
      every pair is booked under the label meant for the pair before it. */
  lemma {:induction false} GluedHeaderLayout(heads: seq<string>, ps: seq<Pair>, labels: seq<string>)
    requires LayoutParts(heads, ps)
    requires forall i :: 0 <= i < |labels| ==> LabelLike(labels[i])
    ensures BlockFromTokens(heads + Interleave(ps) + (["RDID"] + labels)) == Zip(ps, ["RDID"] + labels)
  {
    HeaderSpellings();
    LeftOfLayout(heads, ps, ["RDID"] + labels);
    GluedHeaderKept(labels);
  }

  lemma GluedLabel()
    ensures LabelLike("RDID")
  {
    HeaderWords();
    assert !IsDigit("RDID"[0]);
  }

  lemma LabelsKept(t: string, labels: seq<string>)
    requires LabelLike(t)
    requires forall i :: 0 <= i < |labels| ==> LabelLike(labels[i])
    ensures Filter([t] + labels, NotHeaderWord) == [t] + labels
    ensures Filter([t] + labels, HasNonDigit) == [t] + labels
  {
    var tail := [t] + labels;
    forall i | 0 <= i < |tail|
      ensures LabelLike(tail[i])
    {
      if i > 0 {
        assert tail[i] == labels[i - 1];
      }
    }
    FilterKeepsAll(tail, NotHeaderWord);
    FilterKeepsAll(tail, HasNonDigit);
  }

  lemma GluedHeaderKept(labels: seq<string>)
    requires forall i :: 0 <= i < |labels| ==> LabelLike(labels[i])
    ensures Filter(["RDID"] + labels, NotHeaderWord) == ["RDID"] + labels
    ensures Filter(["RDID"] + labels, HasNonDigit) == ["RDID"] + labels
  {
    GluedLabel();
    LabelsKept("RDID", labels);
  }

  // ---------------------------------------------------------------- the report example

  lemma CountHeading()
    ensures IsColumnHead("AnzahlvonSCHADEN")
  {
    assert Upper("AnzahlvonSCHADEN") == "ANZAHLVONSCHADEN";
    FoldWithoutUmlauts("ANZAHLVONSCHADEN");
  }

  lemma OwnerHeading()
    ensures IsColumnHead("ZUSTAENDIG")
  {
    assert Upper("ZUSTAENDIG") == "ZUSTAENDIG";
    FoldWithoutUmlauts("ZUSTAENDIG");
  }

  /** The owner heading printed with its umlaut is skipped: "Zuständig" folds to
      "ZUSTAENDIG". */
  lemma OwnerHeadingWithUmlaut()
    ensures IsColumnHead("Zuständig")
  {
    assert Upper("Zuständig") == "ZUST" + "Ä" + "NDIG";
    FoldAroundAE("ZUST", "NDIG");
    assert "ZUST" + "AE" + "NDIG" == "ZUSTAENDIG";
  }

  /** The count heading printed with its umlaut is not skipped: "AnzahlvonSchäden"
      folds to "ANZAHLVONSCHAEDEN", which is not in the list. */
  lemma CountHeadingWithUmlautKept()
    ensures NotColumnHead("AnzahlvonSchäden")
  {
    assert Upper("AnzahlvonSchäden") == "ANZAHLVONSCH" + "Ä" + "DEN";
    FoldAroundAE("ANZAHLVONSCH", "DEN");
    assert |"ANZAHLVONSCH" + "AE" + "DEN"| == 17;
  }

  /** A token whose first character is neither an "A" nor a "Z" can be no column
      heading. */
  lemma NotHeadingByFirst(t: string)
    requires |t| > 0 && UpperChar(t[0]) != 'A' && UpperChar(t[0]) != 'Z'
    requires UpperChar(t[0]) != 'Ä' && UpperChar(t[0]) != 'Ö' && UpperChar(t[0]) != 'Ü'
    ensures NotColumnHead(t)
  {
    assert Upper(t)[0] == UpperChar(t[0]);
    assert FoldUmlauts(Upper(t))[0] == UpperChar(t[0]);
  }

  lemma ExampleName()
    ensures NameLike("JHackenbroich")
  {
    NotHeadingByFirst("JHackenbroich");
    PlainNorm("JHackenbroich");
  }

  lemma TwoPairParts(h1: string, h2: string, c1: nat, n1: string, c2: nat, n2: string)
    requires IsColumnHead(h1) && IsColumnHead(h2)
    requires NameLike(n1) && NameLike(n2)
    ensures LayoutParts([h1, h2], [Pair(c1, n1), Pair(c2, n2)])
  {
  }

  lemma ExampleParts()
    ensures LayoutParts(["AnzahlvonSCHADEN", "ZUSTAENDIG"], [Pair(316, "JHackenbroich"), Pair(169, "JHackenbroich")])
  {
    CountHeading();
    OwnerHeading();
    ExampleName();
    TwoPairParts("AnzahlvonSCHADEN", "ZUSTAENDIG", 316, "JHackenbroich", 169, "JHackenbroich");
  }

  lemma ExampleLabels()
    ensures forall i :: 0 <= i < 2 ==> LabelLike(["Regulierer", "Sachverständiger"][i])
  {
    assert |Upper("Regulierer")| == 10 && |Upper("Sachverständiger")| == 16;
    assert !IsDigit("Regulierer"[0]) && !IsDigit("Sachverständiger"[0]);
  }

  lemma ExamplePairs()
    ensures Interleave([Pair(316, "JHackenbroich"), Pair(169, "JHackenbroich")])
         == ["316", "JHackenbroich", "169", "JHackenbroich"]
  {
    assert NatToString(316) == "316";
    assert NatToString(169) == "169";
  }

  lemma ExampleLayout()
    ensures ["AnzahlvonSCHADEN", "ZUSTAENDIG"]
              + Interleave([Pair(316, "JHackenbroich"), Pair(169, "JHackenbroich")])
              + (["RD", "ID"] + ["Regulierer", "Sachverständiger"])
         == ["AnzahlvonSCHADEN", "ZUSTAENDIG", "316", "JHackenbroich", "169",
             "JHackenbroich", "RD", "ID", "Regulierer", "Sachverständiger"]
  {
    ExamplePairs();
  }

  lemma ExampleRead()
    ensures BlockFromTokens(["AnzahlvonSCHADEN", "ZUSTAENDIG"]
              + Interleave([Pair(316, "JHackenbroich"), Pair(169, "JHackenbroich")])
              + (["RD", "ID"] + ["Regulierer", "Sachverständiger"]))
         == Zip([Pair(316, "JHackenbroich"), Pair(169, "JHackenbroich")], ["Regulierer", "Sachverständiger"])
  {
    ExampleParts();
    ExampleLabels();
    BlockOfLayout(["AnzahlvonSCHADEN", "ZUSTAENDIG"], [Pair(316, "JHackenbroich"), Pair(169, "JHackenbroich")],
                  ["Regulierer", "Sachverständiger"]);
  }

  lemma ExampleZip()
    ensures Zip([Pair(316, "JHackenbroich"), Pair(169, "JHackenbroich")], ["Regulierer", "Sachverständiger"])
         == [Record(316, "JHackenbroich", "Regulierer"), Record(169, "JHackenbroich", "Sachverständiger")]
  {
    ZipByPosition([Pair(316, "JHackenbroich"), Pair(169, "JHackenbroich")], ["Regulierer", "Sachverständiger"]);
  }

  /** The report in the docstring of `parse_block_access_style` (line 130): two
      headings, two pairs of the same employee, "RD ID", two labels. Each pair gets
      the label at its position. */
  lemma ReportBlockExample()
    ensures BlockFromTokens(["AnzahlvonSCHADEN", "ZUSTAENDIG", "316", "JHackenbroich", "169",
                             "JHackenbroich", "RD", "ID", "Regulierer", "Sachverständiger"])
         == [Record(316, "JHackenbroich", "Regulierer"), Record(169, "JHackenbroich", "Sachverständiger")]
  {
    ExampleRead();
    ExampleLayout();
    ExampleZip();
  }
}
