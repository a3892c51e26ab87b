/** The row-wise grammar of app.py (`parse_lines_row_style`, lines 108-125): every
    non-blank line of the form `<count> <name> <type>` gives one record. */
module RowParser {
  import opened Util
  import opened Text
  import opened Records

  /** `\d+`. */
  predicate IsCountField(s: string) {
    |s| > 0 && AllDigits(s)
  }

  /** `[A-Za-zÄÖÜäöüß][\wÄÖÜäöüß\.-]+`. */
  predicate IsNameField(s: string) {
    |s| >= 2 && IsLetter(s[0]) && forall i :: 1 <= i < |s| ==> IsFieldChar(s[i])
  }

  predicate NonEmpty(s: string) {
    s != []
  }

  /** `[l.strip() for l in text.splitlines() if l.strip()]`. */
  function Lines(text: string): (ls: seq<string>)
    ensures forall k :: 0 <= k < |ls| ==> ls[k] != []
  {
    Filter(Map(SplitLines(text), Strip), NonEmpty)
  }

  /** The default pattern `^(\d+)\s+(name)\s+(type)\s*$` searched in a stripped line.
      No field can hold whitespace, so the line matches exactly when it consists of
      three whitespace-separated tokens of the right shapes. */
  function MatchRow(line: string): (m: Option<Record>)
    ensures m.Some? ==> IsNameField(m.value.name) && IsNameField(m.value.rdid)
  {
    var f := Tokens(line);
    if |f| == 3 && IsCountField(f[0]) && IsNameField(f[1]) && IsNameField(f[2])
    then Some(Record(CountValue(f[0]), f[1], f[2]))
    else None
  }

  /** What one line adds to the result list. */
  function LineRecords(line: string): (rs: seq<Record>)
    ensures |rs| <= 1
  {
    match MatchRow(line)
    case Some(r) => [r]
    case None => []
  }

  /** The records of a list of lines, in line order. */
  function RowRecords(lines: seq<string>): seq<Record> {
    FlatMap(lines, LineRecords)
  }

  function RowStyle(text: string): seq<Record> {
    RowRecords(Lines(text))
  }

  /** `parse_lines_row_style(text)` without a custom pattern. */
  method ParseRowStyle(text: string) returns (rows: seq<Record>)
    ensures rows == RowStyle(text)
  {
    var lines := Lines(text);
    rows := [];
    var i := 0;
    while i < |lines|
      invariant 0 <= i <= |lines|
      invariant rows == RowRecords(lines[..i])
    {
      var m := MatchRow(lines[i]);
      FlatMapStep(lines, i, LineRecords);
      if m.Some? {
        rows := rows + [m.value];
      }
      i := i + 1;
    }
    assert lines[..|lines|] == lines;
  }

  // ---------------------------------------------------------------- properties

  /** Lines are parsed independently and their records concatenated in line
      order, each line adding at most one. */
  lemma RowRecordsAppend(a: seq<string>, b: seq<string>)
    ensures RowRecords(a + b) == RowRecords(a) + RowRecords(b)
  {
    FlatMapAppend(a, b, LineRecords);
  }

  lemma {:induction false} RowRecordsLength(lines: seq<string>)
    ensures |RowRecords(lines)| <= |lines|
  {
    if lines != [] {
      var init, last := lines[..|lines| - 1], lines[|lines| - 1];
      RowRecordsLength(init);
      assert lines == init + [last];
      FlatMapSnoc(init, last, LineRecords);
    }
  }

  lemma RowRecordsOneLine(line: string)
    ensures RowRecords([line]) == LineRecords(line)
  {
    FlatMapSnoc([], line, LineRecords);
    assert [] + [line] == [line];
  }

  lemma LinesOfJoin(ws: seq<string>)
    requires |ws| > 0
    requires forall k :: 0 <= k < |ws| ==> IsToken(ws[k])
    ensures Lines(Join(ws)) == [Join(ws)]
  {
    JoinIsOneLine(ws);
    assert |Join(ws)| >= |ws[0]| > 0;
    LinesOfLine(Join(ws));
  }

  /** A non-empty line without a boundary that `strip` leaves alone is its own only
      line. */
  lemma LinesOfLine(line: string)
    requires line != [] && SplitLines(line) == [line] && Strip(line) == line
    ensures Lines(line) == [line]
  {
    assert Map([line], Strip) == [line];
    FilterAppend([], line, NonEmpty);
    assert [] + [line] == [line];
  }

  lemma MatchRowOfJoin(n: nat, name: string, rdid: string)
    requires IsNameField(name) && IsNameField(rdid)
    ensures MatchRow(Join([NatToString(n), name, rdid])) == Some(Record(n, name, rdid))
  {
    TokensOfJoin([NatToString(n), name, rdid]);
    NatToStringRoundTrip(n);
    CountValueOfDigits(NatToString(n));
  }

  /** A well-formed line `"N Name Type"` is read back as exactly `(N, Name, Type)`. */
  lemma RowRoundTrip(n: nat, name: string, rdid: string)
    requires IsNameField(name) && IsNameField(rdid)
    ensures RowStyle(Join([NatToString(n), name, rdid])) == [Record(n, name, rdid)]
  {
    var line := Join([NatToString(n), name, rdid]);
    LinesOfJoin([NatToString(n), name, rdid]);
    MatchRowOfJoin(n, name, rdid);
    RowRecordsOneLine(line);
  }

  /** Whatever a line yields is determined by its tokens, and re-formatting the
      record as a canonical line yields the same record again. */
  lemma MatchRowCanonical(line: string)
    requires MatchRow(line).Some?
    ensures var r := MatchRow(line).value;
      && Tokens(line)[1..] == [r.name, r.rdid]
      && CountValue(Tokens(line)[0]) == r.count
      && RowStyle(Join([NatToString(r.count), r.name, r.rdid])) == [r]
  {
    var r := MatchRow(line).value;
    RowRoundTrip(r.count, r.name, r.rdid);
  }

  /** Empty or whitespace-only text gives no records. */
  lemma RowStyleBlank(text: string)
    requires AllSpace(text)
    ensures RowStyle(text) == []
  {
    var pieces := SplitLines(text);
    SplitLinesAllSpace(text);
    var stripped := Map(pieces, Strip);
    forall k | 0 <= k < |pieces| ensures stripped[k] == [] {
      AllSpaceStrip(pieces[k]);
    }
    assert Lines(text) == Filter(stripped, NonEmpty);
  }

  /** Text cut at a line boundary gives the lines before it, then the lines after it. */
  lemma LinesAround(a: string, x: char, b: string)
    requires IsLineBreak(x)
    ensures Lines(a + [x] + b) == Lines(a) + Lines(b)
  {
    var pa, pb := SplitLines(a), SplitLines(b);
    calc {
      Lines(a + [x] + b);
      == { SplitLinesAround(a, x, b); }
      Filter(Map(pa + pb, Strip), NonEmpty);
      == { MapConcat(pa, pb, Strip); }
      Filter(Map(pa, Strip) + Map(pb, Strip), NonEmpty);
      == { FilterConcat(Map(pa, Strip), Map(pb, Strip), NonEmpty); }
      Lines(a) + Lines(b);
    }
  }

  /** Records come out in line order: the records of a text cut at a line boundary
      are the records before it followed by the records after it. */
  lemma RowStyleAround(a: string, x: char, b: string)
    requires IsLineBreak(x)
    ensures RowStyle(a + [x] + b) == RowStyle(a) + RowStyle(b)
  {
    LinesAround(a, x, b);
    RowRecordsAppend(Lines(a), Lines(b));
  }

  /** The same for the commonest boundary, a newline. */
  lemma RowStyleTwoLines(a: string, b: string)
    ensures RowStyle(a + "\n" + b) == RowStyle(a) + RowStyle(b)
  {
    assert a + "\n" + b == a + ['\n'] + b;
    RowStyleAround(a, '\n', b);
  }
}
