/** The block grammar of app.py (`parse_block_access_style`, lines 127-216): OCR has
    flattened a table into one token stream `heads… count name count name … RD ID
    type type …`; counts and names are read from the left of the "RD" header, type
    labels from its right, and the two lists are zipped by position. */
module BlockParser {
  import opened Util
  import opened Text
  import opened Records

  // ---------------------------------------------------------------- header

  /** The header spellings accepted once upper-cased and stripped of `_` and `-`. */
  predicate IsHeaderNorm(norm: string) {
    norm == "RD" || norm == "RDID" || norm == "RDID:" || norm == "RDID."
  }

  /** `tok.upper().replace("_", "").replace("-", "")`. */
  function Norm(tok: string): string {
    Without(Without(Upper(tok), '_'), '-')
  }

  /** The three scans that look for the header, in the order the code tries them. */
  datatype HeaderRule =
    | FirstLoop        // lines 144-157
    | PairFallback     // lines 160-164: the literal tokens "RD" "ID"
    | PrefixFallback   // lines 167-171: any token starting with "RD"

  /** Does token `i` satisfy the test of `rule`? For `FirstLoop`, the four tests the
      loop body makes in turn, any of which ends the loop at `i`. */
  predicate Matches(rule: HeaderRule, toks: seq<string>, i: nat)
    requires i < |toks|
  {
    var up := Upper(toks[i]);
    var hasNext := i + 1 < |toks|;
    match rule
    case FirstLoop =>
      || IsHeaderNorm(Norm(toks[i]))
      || (Norm(toks[i]) == "RD" && hasNext && StartsWith(Upper(toks[i + 1]), "ID"))
      || (up == "RD" && hasNext && Upper(toks[i + 1]) == "ID")
      || (StartsWith(up, "RD") && hasNext && StartsWith(Upper(toks[i + 1]), "ID"))
      || up == "RD_ID" || up == "RD-ID"
    case PairFallback =>
      hasNext && up == "RD" && Upper(toks[i + 1]) == "ID"
    case PrefixFallback =>
      StartsWith(up, "RD")
  }

  /** The first index at or after `from` whose token satisfies `rule`. */
  function FirstMatch(rule: HeaderRule, toks: seq<string>, from: nat): (r: Option<nat>)
    decreases |toks| - from
    ensures r.Some? ==> from <= r.value < |toks| && Matches(rule, toks, r.value)
    ensures forall j :: from <= j < |toks| && (r.None? || j < r.value) ==> !Matches(rule, toks, j)
  {
    if from >= |toks| then None
    else if Matches(rule, toks, from) then Some(from)
    else FirstMatch(rule, toks, from + 1)
  }

  /** `rd_header_idx`: the first token the main loop accepts; failing that, the first
      token that starts with "RD". The middle fallback can never succeed once the main
      loop has failed, since the main loop already accepts "RD" followed by "ID". */
  function HeaderIndex(toks: seq<string>): (h: Option<nat>)
    ensures h.Some? ==> h.value < |toks|
    ensures h.Some? && Matches(FirstLoop, toks, h.value) ==>
      forall j :: 0 <= j < h.value ==> !Matches(FirstLoop, toks, j)
    ensures h.Some? && !Matches(FirstLoop, toks, h.value) ==>
      && Matches(PrefixFallback, toks, h.value)
      && (forall j :: 0 <= j < |toks| ==> !Matches(FirstLoop, toks, j))
      && (forall j :: 0 <= j < h.value ==> !Matches(PrefixFallback, toks, j))
    ensures h.None? <==>
      forall j :: 0 <= j < |toks| ==> !Matches(FirstLoop, toks, j) && !Matches(PrefixFallback, toks, j)
  {
    match FirstMatch(FirstLoop, toks, 0)
    case Some(i) => Some(i)
    case None =>
      PairFallbackSubsumed(toks);
      match FirstMatch(PairFallback, toks, 0)
      case Some(i) => Some(i)
      case None => FirstMatch(PrefixFallback, toks, 0)
  }

  lemma PairFallbackSubsumed(toks: seq<string>)
    ensures forall j :: 0 <= j < |toks| && Matches(PairFallback, toks, j) ==> Matches(FirstLoop, toks, j)
  {
  }

  /** One scan of the header search: the loop of lines 144-157, 160-164 or 167-171,
      stopping at the first token that passes the test of `rule`. The pair scan stops
      one token early since its test needs a successor; the result is the same. */
  method ScanHeader(rule: HeaderRule, toks: seq<string>) returns (r: Option<nat>)
    ensures r == FirstMatch(rule, toks, 0)
  {
    var i := 0;
    while i < |toks|
      invariant 0 <= i <= |toks|
      invariant FirstMatch(rule, toks, i) == FirstMatch(rule, toks, 0)
    {
      if Matches(rule, toks, i) {
        return Some(i);
      }
      i := i + 1;
    }
    return None;
  }

  /** The header search of lines 142-171: three scans, each ending at its first hit. */
  method FindHeader(toks: seq<string>) returns (h: Option<nat>)
    ensures h == HeaderIndex(toks)
  {
    h := ScanHeader(FirstLoop, toks);
    if h.Some? {
      return;
    }
    h := ScanHeader(PairFallback, toks);
    if h.Some? {
      return;
    }
    h := ScanHeader(PrefixFallback, toks);
  }

  // ---------------------------------------------------------------- segments

  /** Upper-cased header words removed from the right segment (line 180). */
  predicate NotHeaderWord(t: string) {
    var up := Upper(t);
    !(up == "RD" || up == "ID" || up == "RD_ID" || up == "RD-ID")
  }

  /** Column headings dropped from the left segment (lines 185-189). */
  predicate IsColumnHead(t: string) {
    var f := FoldUmlauts(Upper(t));
    || f == "ANZAHLVONSCHADEN" || f == "ANZAHLVONSCHÄDEN" || f == "ZUSTAENDIG"
    || f == "ZUSTÄNDIG" || f == "ZUSTAENDIG:" || f == "ZUSTAENDIG,"
  }

  predicate NotColumnHead(t: string) {
    !IsColumnHead(t)
  }

  /** `re.search(r'\D', t)`. */
  predicate HasNonDigit(t: string) {
    !AllDigits(t)
  }

  function LeftSegment(toks: seq<string>): seq<string> {
    match HeaderIndex(toks)
    case Some(h) => toks[..h]
    case None => toks
  }

  function RightSegment(toks: seq<string>): seq<string> {
    match HeaderIndex(toks)
    case Some(h) => Filter(toks[h..], NotHeaderWord)
    case None => []
  }

  /** `left_tokens_clean`. */
  function CleanLeft(toks: seq<string>): seq<string> {
    Filter(LeftSegment(toks), NotColumnHead)
  }

  /** `types`: right-segment tokens containing a non-digit character. */
  function TypeLabels(toks: seq<string>): seq<string> {
    Filter(RightSegment(toks), HasNonDigit)
  }

  /** The loop of lines 186-189. */
  method DropColumnHeads(left: seq<string>) returns (clean: seq<string>)
    ensures clean == Filter(left, NotColumnHead)
  {
    clean := [];
    for i := 0 to |left|
      invariant clean == Filter(left[..i], NotColumnHead)
    {
      FilterStep(left, i, NotColumnHead);
      if IsColumnHead(left[i]) {
        continue;
      }
      clean := clean + [left[i]];
    }
    assert left[..|left|] == left;
  }

  // ---------------------------------------------------------------- pairs

  /** `\d+(\.\d{3})*` as a full match: a digit run, then any number of groups of a
      dot and three digits. */
  predicate IsGroupedNumber(s: string)
    decreases |s|
  {
    && |s| > 0
    && (|| AllDigits(s)
        || (&& |s| >= 5 && s[|s| - 4] == '.' && AllDigits(s[|s| - 3..])
            && IsGroupedNumber(s[..|s| - 4])))
  }

  datatype Pair = Pair(count: nat, name: string)

  /** The two-stride scan of lines 192-205, from the front of `ts`: a number and the
      token after it form a pair; any other token is skipped alone. */
  function Pairs(ts: seq<string>): seq<Pair>
    decreases |ts|
  {
    if |ts| < 2 then []
    else if IsGroupedNumber(ts[0]) then [Pair(CountValue(ts[0]), ts[1])] + Pairs(ts[2..])
    else Pairs(ts[1..])
  }

  method ScanPairs(ts: seq<string>) returns (pairs: seq<Pair>)
    ensures pairs == Pairs(ts)
  {
    pairs := [];
    var i := 0;
    while i < |ts| - 1
      invariant 0 <= i <= |ts|
      invariant pairs + Pairs(ts[i..]) == Pairs(ts)
    {
      var cTok, nTok := ts[i], ts[i + 1];
      assert ts[i..][0] == cTok && ts[i..][1] == nTok;
      if IsGroupedNumber(cTok) {
        assert ts[i..][2..] == ts[i + 2..];
        var p := Pair(CountValue(cTok), nTok);
        assert pairs + Pairs(ts[i..]) == (pairs + [p]) + Pairs(ts[i + 2..]);
        pairs := pairs + [p];
        i := i + 2;
      } else {
        assert ts[i..][1..] == ts[i + 1..];
        i := i + 1;
      }
    }
    assert Pairs(ts[i..]) == [];
    assert pairs + [] == pairs;
  }

  // ---------------------------------------------------------------- zip

  /** Lines 211-216: pair `k` is booked with type label `k` when there is one and it
      is non-empty; pairs beyond the labels are dropped. */
  function Zip(pairs: seq<Pair>, types: seq<string>): seq<Record> {
    if pairs == [] then []
    else
      var k := |pairs| - 1;
      Zip(pairs[..k], types)
      + (if k < |types| && types[k] != [] then [Record(pairs[k].count, pairs[k].name, types[k])] else [])
  }

  method ZipRecords(pairs: seq<Pair>, types: seq<string>) returns (rows: seq<Record>)
    ensures rows == Zip(pairs, types)
  {
    rows := [];
    for idx := 0 to |pairs|
      invariant rows == Zip(pairs[..idx], types)
    {
      assert pairs[..idx + 1][..idx] == pairs[..idx];
      assert pairs[..idx + 1][idx] == pairs[idx];
      var rdid: Option<string> := if idx < |types| then Some(types[idx]) else None;
      if rdid.Some? && rdid.value != [] {
        rows := rows + [Record(pairs[idx].count, pairs[idx].name, rdid.value)];
      }
    }
    assert pairs[..|pairs|] == pairs;
  }

  // ---------------------------------------------------------------- the parser

  function BlockFromTokens(toks: seq<string>): seq<Record> {
    Zip(Pairs(CleanLeft(toks)), TypeLabels(toks))
  }

  function BlockStyle(text: string): seq<Record> {
    var toks := Tokens(text);
    if toks == [] then [] else BlockFromTokens(toks)
  }

  /** `parse_block_access_style(text)`. */
  method ParseBlockStyle(text: string) returns (rows: seq<Record>)
    ensures rows == BlockStyle(text)
  {
    var toks := Tokens(text);
    if toks == [] {
      return [];
    }
    var h := FindHeader(toks);
    var left, right := toks, [];
    if h.Some? {
      left := toks[..h.value];
      right := Filter(toks[h.value..], NotHeaderWord);
    }
    var clean := DropColumnHeads(left);
    var pairs := ScanPairs(clean);
    var types := Filter(right, HasNonDigit);
    rows := ZipRecords(pairs, types);
  }

  // ---------------------------------------------------------------- properties

  /** Pairs `i` and type labels `i` are joined by position: the result is as long
      as the shorter list and its `i`-th record is built from the `i`-th of each. */
  lemma {:induction false} ZipByPosition(pairs: seq<Pair>, types: seq<string>)
    requires forall k :: 0 <= k < |types| ==> types[k] != []
    ensures |Zip(pairs, types)| == if |pairs| < |types| then |pairs| else |types|
    ensures forall i :: 0 <= i < |Zip(pairs, types)| ==>
      Zip(pairs, types)[i] == Record(pairs[i].count, pairs[i].name, types[i])
  {
    if pairs != [] {
      var k := |pairs| - 1;
      ZipByPosition(pairs[..k], types);
    }
  }

  /** Pair `p` is read from the number token at `j` and the token after it. */
  predicate PairAt(ts: seq<string>, j: int, p: Pair) {
    0 <= j && j + 1 < |ts| && IsGroupedNumber(ts[j]) && p == Pair(CountValue(ts[j]), ts[j + 1])
  }

  /** Pair `k` of the scan comes from some adjacent pair of tokens. */
  ghost predicate PairFromTokens(ts: seq<string>, k: int) {
    0 <= k < |Pairs(ts)| && exists j :: PairAt(ts, j, Pairs(ts)[k])
  }

  lemma {:induction false} PairComesFrom(ts: seq<string>, k: nat)
    requires k < |Pairs(ts)|
    ensures PairFromTokens(ts, k)
    decreases |ts|
  {
    if IsGroupedNumber(ts[0]) {
      if k == 0 {
        assert PairAt(ts, 0, Pairs(ts)[k]);
      } else {
        var rest := ts[2..];
        PairComesFrom(rest, k - 1);
        var j :| PairAt(rest, j, Pairs(rest)[k - 1]);
        assert rest[j] == ts[j + 2] && rest[j + 1] == ts[j + 3];
        assert PairAt(ts, j + 2, Pairs(ts)[k]);
      }
    } else {
      var rest := ts[1..];
      PairComesFrom(rest, k);
      var j :| PairAt(rest, j, Pairs(rest)[k]);
      assert rest[j] == ts[j + 1] && rest[j + 1] == ts[j + 2];
      assert PairAt(ts, j + 1, Pairs(ts)[k]);
    }
  }

  lemma {:induction false} PairsLength(ts: seq<string>)
    ensures 2 * |Pairs(ts)| <= |ts|
    decreases |ts|
  {
    if |ts| >= 2 {
      if IsGroupedNumber(ts[0]) {
        PairsLength(ts[2..]);
      } else {
        PairsLength(ts[1..]);
      }
    }
  }

  /** Every pair is a number token and the token right after it; in particular a
      final lone token never starts a pair. */
  lemma PairsFromAdjacentTokens(ts: seq<string>)
    ensures 2 * |Pairs(ts)| <= |ts|
    ensures forall k :: 0 <= k < |Pairs(ts)| ==> PairFromTokens(ts, k)
  {
    PairsLength(ts);
    forall k | 0 <= k < |Pairs(ts)| ensures PairFromTokens(ts, k) {
      PairComesFrom(ts, k);
    }
  }

  /** Lays out pairs as the report's left segment: `count name count name …`. */
  function Interleave(ps: seq<Pair>): (ts: seq<string>)
    ensures |ts| == 2 * |ps|
  {
    if ps == [] then [] else [NatToString(ps[0].count), ps[0].name] + Interleave(ps[1..])
  }

  lemma PairsOfInterleaveStep(ps: seq<Pair>)
    requires ps != []
    ensures Pairs(Interleave(ps)) == [ps[0]] + Pairs(Interleave(ps[1..]))
  {
    var ts := Interleave(ps);
    var c := NatToString(ps[0].count);
    NatToStringRoundTrip(ps[0].count);
    CountValueOfDigits(c);
    assert ts[0] == c && ts[1] == ps[0].name;
    assert ts[2..] == Interleave(ps[1..]);
    assert IsGroupedNumber(c);
  }

  /** The pair scan reads back any left segment of `count name` pairs, whatever
      the names look like. */
  lemma {:induction false} PairsOfInterleave(ps: seq<Pair>)
    ensures Pairs(Interleave(ps)) == ps
  {
    if ps != [] {
      PairsOfInterleave(ps[1..]);
      PairsOfInterleaveStep(ps);
      assert [ps[0]] + ps[1..] == ps;
    }
  }

  /** Thousands separators: a grouped number followed by "." and three more digits
      is a grouped number worth a thousand times as much plus those digits. */
  lemma GroupedStep(a: string, d: string)
    requires IsGroupedNumber(a) && |d| == 3 && AllDigits(d)
    ensures IsGroupedNumber(a + "." + d)
    ensures CountValue(a + "." + d) == CountValue(a) * 1000 + DigitsValue(d)
  {
    var s := a + "." + d;
    assert s[..|s| - 4] == a && s[|s| - 4] == '.' && s[|s| - 3..] == d;
    FilterKeepsAll(d, IsDigit);
    FilterAround(a, '.', d, IsDigit);
    DigitsValueConcat(Filter(a, IsDigit), d);
    assert Pow10(3) == 1000;
  }

  /** "1.234" is a count token worth 1234. */
  lemma ThousandsSeparator()
    ensures IsGroupedNumber("1.234") && CountValue("1.234") == 1234
  {
    CountValueOfDigits("1");
    assert DigitsValue("1") == 1 by { assert "1"[..0] == []; }
    GroupedStep("1", "234");
    assert "1" + "." + "234" == "1.234";
    assert DigitsValue("234") == 234 by {
      assert "234"[..2] == "23" && "23"[..1] == "2" && "2"[..0] == [];
    }
  }

  /** Without a header token the right segment is empty, so nothing is booked. */
  lemma NoHeaderNoRecords(toks: seq<string>)
    requires HeaderIndex(toks).None?
    ensures TypeLabels(toks) == [] && BlockFromTokens(toks) == []
  {
    ZipByPosition(Pairs(CleanLeft(toks)), []);
  }

  /** A token stream in which no token starts with "RD" (upper-cased) and none
      normalises to a header spelling gives no records. */
  lemma NoRdNoRecords(toks: seq<string>)
    requires forall k :: 0 <= k < |toks| ==>
      !StartsWith(Upper(toks[k]), "RD") && !IsHeaderNorm(Norm(toks[k]))
    ensures BlockFromTokens(toks) == []
  {
    forall j | 0 <= j < |toks|
      ensures !Matches(FirstLoop, toks, j) && !Matches(PrefixFallback, toks, j)
    {
    }
    NoHeaderNoRecords(toks);
  }

  /** Empty or whitespace-only text gives no records (never an error). */
  lemma BlockStyleBlank(text: string)
    requires AllSpace(text)
    ensures BlockStyle(text) == []
  {
    AllSpaceTokens(text);
  }

  /** The result zips the count/name pairs of the cleaned left segment with the type
      labels of the right segment, position by position. */
  lemma BlockZip(toks: seq<string>)
    ensures var pairs, types, rs := Pairs(CleanLeft(toks)), TypeLabels(toks), BlockFromTokens(toks);
      && |rs| == (if |pairs| < |types| then |pairs| else |types|)
      && forall i :: 0 <= i < |rs| ==> rs[i] == Record(pairs[i].count, pairs[i].name, types[i])
  {
    ZipByPosition(Pairs(CleanLeft(toks)), TypeLabels(toks));
  }

  lemma PairNames(toks: seq<string>)
    ensures forall i :: 0 <= i < |Pairs(CleanLeft(toks))| ==>
      var name := Pairs(CleanLeft(toks))[i].name;
      NotColumnHead(name) && name in LeftSegment(toks)
  {
    var clean := CleanLeft(toks);
    PairsFromAdjacentTokens(clean);
    forall i | 0 <= i < |Pairs(clean)|
      ensures NotColumnHead(Pairs(clean)[i].name) && Pairs(clean)[i].name in LeftSegment(toks)
    {
      assert PairFromTokens(clean, i);
      var j :| PairAt(clean, j, Pairs(clean)[i]);
      assert NotColumnHead(clean[j + 1]) && clean[j + 1] in LeftSegment(toks);
    }
  }

  lemma TypeLabelsFiltered(toks: seq<string>)
    ensures forall i :: 0 <= i < |TypeLabels(toks)| ==>
      var t := TypeLabels(toks)[i];
      && HasNonDigit(t) && NotHeaderWord(t)
      && HeaderIndex(toks).Some? && t in toks[HeaderIndex(toks).value..]
  {
    match HeaderIndex(toks)
    case None =>
      assert RightSegment(toks) == [];
      assert TypeLabels(toks) == [];
    case Some(h) =>
      var right := Filter(toks[h..], NotHeaderWord);
      assert TypeLabels(toks) == Filter(right, HasNonDigit);
      forall i | 0 <= i < |TypeLabels(toks)|
        ensures NotHeaderWord(TypeLabels(toks)[i]) && TypeLabels(toks)[i] in toks[h..]
      {
        var t := TypeLabels(toks)[i];
        assert t in right;
        var m :| 0 <= m < |right| && right[m] == t;
        assert NotHeaderWord(right[m]) && right[m] in toks[h..];
      }
  }

  /** No column heading ever becomes a name; every type label holds a non-digit, is
      no header word, and comes from the header token or after it; every name comes
      from before it. */
  lemma BlockFiltering(toks: seq<string>)
    ensures forall i :: 0 <= i < |BlockFromTokens(toks)| ==>
      var r := BlockFromTokens(toks)[i];
      && NotColumnHead(r.name) && r.name in LeftSegment(toks)
      && HasNonDigit(r.rdid) && NotHeaderWord(r.rdid)
      && HeaderIndex(toks).Some? && r.rdid in toks[HeaderIndex(toks).value..]
  {
    BlockZip(toks);
    PairNames(toks);
    TypeLabelsFiltered(toks);
  }

  /** Upper-cased, umlaut-folded tokens never contain "Ä", so the two headings
      spelled with it in the code's list can never match; "AnzahlvonSchäden" is
      kept in the left segment (and skipped there as a stray token). */
  lemma ColumnHeadsWithUmlautNeverMatch(t: string)
    requires IsColumnHead(t)
    ensures var f := FoldUmlauts(Upper(t));
      f == "ANZAHLVONSCHADEN" || f == "ZUSTAENDIG" || f == "ZUSTAENDIG:" || f == "ZUSTAENDIG,"
  {
    assert "ANZAHLVONSCHÄDEN"[12] == 'Ä';
    assert "ZUSTÄNDIG"[4] == 'Ä';
  }
}
