# A verified model of the Schaden-Zähler booking core

`app.py` is a Streamlit app for a claims department. It OCRs photos of printed
Access/Excel reports, recovers `(count, employee, damage type)` records from the
text, and books them into a small in-memory ledger. The ledger holds a total per
employee, a subtotal per employee and damage type (the report column is called
"RD_ID"), an append-only history, and a registry of known damage types that the
"+1" buttons are drawn from.

This project models the part of `app.py` that does the work:

- the row parser `parse_lines_row_style`: one `count name type` record per line;
- the block parser `parse_block_access_style`: a whole report flattened into one
  token stream, with count/name pairs on the left of an "RD ID" header and the type
  labels on its right;
- the ledger operations `incr`, `set_count` and `remove_employee`;
- the add-employee guard;
- adding a type to the registry and resetting it;
- the batch booking of a list of OCR texts.

Modules, one per file:

- `Util`: `Option` plus `Filter`, `FlatMap` and `SumOf` with their algebra.
- `Text`: the string built-ins the parsers use (`upper`, `replace`, `strip`,
  `splitlines`, `re.findall(r'\S+')`, `int`/`str` on digit strings).
- `Records`: the `(count, name, rdid)` record.
- `RowParser`: the row grammar, its loop, and a round trip.
- `BlockParser`: the header search, the segments, the pair scan and the zip. Each
  loop is a method proved equal to a function.
- `BlockLayout`: the block parser read against the report layout it targets,
  including the report in the docstring of `parse_block_access_style`
  (app.py:130).
- `Books`: the ledger as a value, with `incr`, `set_count`, `remove_employee`,
  add-employee and the type registry as functions.
- `Batch`: the batch booking as a specification, with the aggregate in first-seen
  order and the lemmas that say what a batch does to every counter.
- `Ledger`: `class Ledger`, the session state with map and sequence fields. Its
  methods mutate them in place and are proved against `Books` and `Batch`.

In two places the code does something other than what its own comments say. The
model follows the code:

- **The last header scan runs forward.** The comment at app.py:166 says it tries
  "RD" "anywhere near the end". The loop at app.py:167-171 takes the first token
  starting with "RD".
- **Column headings are dropped anywhere in the left segment.** The comment at
  app.py:182-183 says "at the beginning of left block". The loop at app.py:186-189
  tests every token of the segment (`BlockLayout.CleanOfLayout`).

Other facts about the code that the model keeps:

- **The first header scan accepts more than an "RD" "ID" pair.** A lone "RD",
  "RDID", "RDID:", "RDID." or "RD_ID" also counts as the header (app.py:144-157).
  A name that normalises to one of these would be taken for the header, so the
  layout lemmas ask only that names avoid these spellings.
- **The header token itself stays in the right segment.** Only "RD", "ID", "RD_ID"
  and "RD-ID" are dropped from it (app.py:180). A glued "RDID" header therefore
  becomes the first type label (`BlockLayout.GluedHeaderLayout`).
- **The skip-list entries spelled with "Ä" can never match.** The token is
  umlaut-folded before the comparison (`BlockParser.ColumnHeadsWithUmlautNeverMatch`).
  So "Zuständig" is skipped, but "AnzahlvonSchäden" is not
  (`BlockLayout.OwnerHeadingWithUmlaut`, `BlockLayout.CountHeadingWithUmlautKept`).
- **A type label is any token with a non-digit character** (app.py:208). It need
  not be a word.
- **The tokenizer splits on whitespace only** (app.py:138). It does not rewrite
  literal `\n` escapes, non-breaking spaces or zero-width spaces.
- **An employee with at least one typed record gets only their typed subtotals
  booked** (app.py:272-276). The counts of their untyped records are lost
  (`Batch.BatchDropsUntyped`). Neither parser produces an untyped record, so every
  count parsed from OCR text is booked (`Batch.BatchOfTexts`).

## Model

| member | source | states |
|---|---|---|
| Text.UpperChar | app.py:145 | upper-casing one character leaves no lower-case letter (a–z, ä, ö, ü); each such letter moves 32 code points down to its capital; every other character is kept; whitespace and digits stay what they were |
| Text.Upper | app.py:145-169 | `upper()` keeps the length, replaces each lower-case letter by its capital in place, keeps every other character, and leaves no lower-case letter |
| Text.UpperIdempotent | app.py:145-152 | upper-casing twice is upper-casing once |
| Text.Without | app.py:145 | `replace(c, "")` leaves no `c` behind and never lengthens the string; `WithoutIsFilter` states that every other character is kept in order |
| Text.WithoutIsFilter | app.py:145 | `replace(c, "")` keeps every other character, in order: it is the filter that drops `c` |
| Text.WithoutConcat | app.py:145 | removing a character works piece by piece |
| Text.WithoutChar | app.py:145 | a single character disappears exactly when it is the one removed |
| Text.WithoutAbsent | app.py:145 | removing a character that does not occur changes nothing |
| Text.FoldUmlauts | app.py:187 | after the three replacements no Ä, Ö or Ü is left; `FoldUmlautsConcat` and `FoldUmlautsChar` state that each umlaut becomes its two-letter spelling and every other character is kept |
| Text.FoldUmlautsConcat | app.py:187 | folding works piece by piece |
| Text.FoldUmlautsChar | app.py:187 | "Ä", "Ö" and "Ü" become "AE", "OE" and "UE"; any other character is kept |
| Text.FoldAroundAE | app.py:187 | an "Ä" between two umlaut-free runs is spelled "AE" and the runs are kept |
| Text.FoldWithoutUmlauts | app.py:187 | folding a string without Ä, Ö, Ü changes nothing |
| Text.TrimStart | app.py:110 | the leading whitespace is removed, and only that: what remains is a suffix starting with a non-space |
| Text.TrimEnd | app.py:110 | the trailing whitespace is removed, and only that: what remains is a prefix ending in a non-space, and everything cut off is whitespace |
| Text.Strip | app.py:110 | neither end of a stripped string is whitespace |
| Text.StripRemovesSpace | app.py:110 | `strip()` keeps one contiguous slice of its input; everything before and after that slice is whitespace |
| Text.AllSpaceStrip | app.py:110 | a blank line strips to the empty string, so it is discarded |
| Text.SplitLines | app.py:110 | `splitlines()` gives at least one piece; `SplitLinesPieces` and `SplitLinesAround` state that the pieces hold no boundary, number one more than the boundaries, and are cut exactly at each boundary |
| Text.SplitLinesPieces | app.py:110 | no piece holds a line boundary, and there is one more piece than there are boundaries |
| Text.SplitLinesAround | app.py:110 | text cut at a line boundary gives the lines before it followed by the lines after it |
| Text.SplitLinesWithoutBreak | app.py:110 | text without a line boundary is a single line |
| Text.SplitLinesAllSpace | app.py:110 | every line of blank text is blank |
| Text.WordLen | app.py:138 | the first token's length: all non-space before it, a space or the end after it |
| Text.Tokens | app.py:138 | every token found by `\S+` is non-empty and holds no whitespace |
| Text.AllSpaceTokens | app.py:138-140 | blank text has no tokens |
| Text.TokensSkipSpace | app.py:138 | leading whitespace does not change the tokens |
| Text.TokensOfWordThen | app.py:138 | a token followed by whitespace or the end is the first token |
| Text.TokensOfJoin | app.py:138 | tokenising single-space-joined tokens gives back exactly those tokens |
| Text.TokensOfOneWord | app.py:138 | one token is tokenised as itself |
| Text.TokensOfJoinStep | app.py:138 | tokenising a joined list peels off its first word |
| Text.JoinIsOneLine | app.py:110 | a single-space-joined line is one line that survives `strip` unchanged |
| Text.DigitsValue | app.py:118 | defines `int()` on a digit string, most significant digit first; `DigitsValueConcat` and `NatToStringRoundTrip` state its properties |
| Text.DigitsValueConcat | app.py:199 | digits written after others shift their value up by one power of ten each |
| Text.CountValue | app.py:199 | defines `int(re.sub(r'\D', '', s))` (also `[^\d]` at line 118): the value of the digits of `s`, with `CountValueOfDigits` and `BlockParser.GroupedStep` stating its properties; it gives 0 where Python's `int("")` would raise, which cannot happen because both callers pass only tokens with at least one digit |
| Text.NatToStringRoundTrip | app.py:118 | `int(str(n)) == n` |
| Text.CountValueOfDigits | app.py:118 | on a digit string, discarding non-digits before `int` changes nothing |
| Text.NatToString | app.py:118 | `str(n)` is a non-empty digit string |
| RowParser.IsCountField | app.py:112 | defines the `count` group `\d+`: a non-empty run of digits |
| RowParser.IsNameField | app.py:112 | defines the `name` and `rdid` groups: a letter (ASCII, umlaut or ß), then at least one word character, umlaut, ß, "." or "-" |
| RowParser.Lines | app.py:110 | the stripped, non-blank lines: none of them is empty |
| RowParser.MatchRow | app.py:112-124 | a matched line gives a name and a type that both fit the field pattern |
| RowParser.LineRecords | app.py:115-124 | a line contributes at most one record |
| RowParser.RowRecords | app.py:114-124 | defines the records of a list of lines: each line's records, in line order; `RowRecordsAppend`, `RowRecordsLength` and `RowRecordsOneLine` state its properties |
| RowParser.RowStyle | app.py:108-125 | defines the row parser on a text: the records of its stripped non-blank lines; `RowRoundTrip` and `RowStyleBlank` state its properties |
| RowParser.ParseRowStyle | app.py:108-125 | the loop over the lines returns exactly the per-line records in line order |
| RowParser.RowRecordsAppend | app.py:114-125 | lines are parsed independently: the records of two blocks of lines are the records of each, concatenated |
| RowParser.RowRecordsLength | app.py:114-124 | no more records than lines |
| RowParser.RowRecordsOneLine | app.py:114-124 | a single line gives what that line matches |
| RowParser.LinesOfJoin | app.py:110 | a joined line is the only non-blank line of itself |
| RowParser.MatchRowOfJoin | app.py:112-124 | the line `"N Name Type"` with well-formed fields matches as `(N, Name, Type)` |
| RowParser.RowRoundTrip | app.py:108-125 | parsing the text `"N Name Type"` gives exactly `[(N, Name, Type)]` |
| RowParser.MatchRowCanonical | app.py:112-124 | a matched line's name and type are its second and third tokens, its count the first token's value, and re-printing the record parses back to it |
| RowParser.LinesAround | app.py:110 | the stripped non-blank lines of a text cut at a line boundary are those before it followed by those after it |
| RowParser.RowStyleAround | app.py:108-125 | records come out in line order: a text cut at a line boundary gives the records before it followed by the records after it |
| RowParser.RowStyleTwoLines | app.py:108-125 | `parse_lines_row_style(a + "\n" + b)` is the records of `a` followed by the records of `b` |
| RowParser.RowStyleBlank | app.py:110-125 | blank text gives no records |
| BlockParser.Norm | app.py:145 | defines `tok.upper().replace("_", "").replace("-", "")` |
| BlockParser.Matches | app.py:144-171 | defines the four tests of the main loop (lines 145-157), the "RD" "ID" test of the first fallback (160-164) and the "RD" prefix test of the last (167-171) |
| BlockParser.FirstMatch | app.py:144-171 | a scan's result satisfies the scan's test, and no earlier token does; no result means no token does |
| BlockParser.HeaderIndex | app.py:143-171 | the header is the first token the main loop accepts or, failing that, the first token starting with "RD"; none exactly when no token passes either test |
| BlockParser.PairFallbackSubsumed | app.py:146-164 | every hit of the "RD" "ID" fallback scan is already a hit of the main loop |
| BlockParser.ScanHeader | app.py:144-171 | each scanning loop stops at the first matching token |
| BlockParser.FindHeader | app.py:142-171 | the three scans in order compute `HeaderIndex` |
| BlockParser.LeftSegment | app.py:173-178 | defines the left segment: the tokens before the header, or all tokens without one |
| BlockParser.NotHeaderWord | app.py:180 | defines the right-segment filter: the upper-cased token is none of "RD", "ID", "RD_ID", "RD-ID" |
| BlockParser.RightSegment | app.py:173-180 | defines the right segment: the header and the tokens after it, header words removed; empty without a header |
| BlockParser.IsColumnHead | app.py:185-187 | defines the skip test: the upper-cased, umlaut-folded token is one of the six listed headings |
| BlockParser.CleanLeft | app.py:184-189 | defines `left_tokens_clean`: the left segment without column headings |
| BlockParser.DropColumnHeads | app.py:184-189 | the loop keeps exactly the non-heading tokens, in order |
| BlockParser.IsGroupedNumber | app.py:197 | defines a full match of `\d+(\.\d{3})*`; `GroupedStep` and `ThousandsSeparator` state its properties |
| BlockParser.Pairs | app.py:192-205 | defines the two-stride scan: a number token and the token after it form a pair, any other token is skipped alone; `PairComesFrom`, `PairsLength` and `PairsOfInterleave` state its properties |
| BlockParser.HasNonDigit | app.py:208 | defines `re.search(r'\D', t)`: some character is not a digit |
| BlockParser.TypeLabels | app.py:207-208 | defines `types`: the right-segment tokens with a non-digit; `TypeLabelsFiltered` states its properties |
| BlockParser.Zip | app.py:210-216 | defines the zip by index: pair `i` with label `i` when there is a non-empty one; `ZipByPosition` states its properties |
| BlockParser.BlockFromTokens | app.py:173-216 | defines the parser on a non-empty token list: the cleaned pairs zipped with the type labels; `BlockZip` and `BlockFiltering` state its properties |
| BlockParser.BlockStyle | app.py:138-216 | defines the parser on a text: nothing without tokens, else `BlockFromTokens` |
| BlockParser.ScanPairs | app.py:192-205 | the two-stride `while` loop computes the pair scan |
| BlockParser.ZipRecords | app.py:211-216 | the zip loop computes the positional zip |
| BlockParser.ParseBlockStyle | app.py:127-216 | the whole parser computes the block specification: segments, filtering, pairs, zip |
| BlockParser.ZipByPosition | app.py:210-216 | with non-empty labels the result is as long as the shorter list, and record `i` is built from pair `i` and label `i` |
| BlockParser.PairComesFrom | app.py:194-205 | pair `k` is a number token and the token right after it |
| BlockParser.PairsLength | app.py:194-205 | the scan consumes two tokens per pair, so a final lone token never forms one |
| BlockParser.PairsFromAdjacentTokens | app.py:194-205 | every pair comes from two adjacent tokens |
| BlockParser.PairsOfInterleave | app.py:192-205 | the pair scan reads back any sequence of `count name` pairs |
| BlockParser.GroupedStep | app.py:197-199 | a grouped number followed by "." and three digits is again a grouped number, worth a thousand times as much plus those digits |
| BlockParser.ThousandsSeparator | app.py:197-199 | "1.234" is a count token worth 1234 |
| BlockParser.NoHeaderNoRecords | app.py:173-180 | without a header there are no type labels and no records |
| BlockParser.NoRdNoRecords | app.py:144-171 | text with no "RD"-prefixed token and no header spelling gives no records |
| BlockParser.BlockStyleBlank | app.py:138-140 | blank text gives `[]`, never an error |
| BlockParser.BlockZip | app.py:210-216 | the result zips the cleaned pairs with the type labels position by position |
| BlockParser.PairNames | app.py:184-205 | no pair's name is a column heading, and every name comes from the left segment |
| BlockParser.TypeLabelsFiltered | app.py:176-208 | every label has a non-digit, is no header word, and comes from the header token or after it |
| BlockParser.BlockFiltering | app.py:180-216 | no column heading becomes a name; every record's type has a non-digit, is no header word and lies right of the header |
| BlockParser.ColumnHeadsWithUmlautNeverMatch | app.py:185-187 | a folded token can only match the skip entries written without "Ä" |
| BlockLayout.NotHeaderAt | app.py:144-171 | a token starting with neither "R" nor "r" nor "_" nor "-" passes no test of the main loop and none of the last fallback |
| BlockLayout.NameNotHeader | app.py:144-157 | a token that does not normalise to a header spelling, followed by a token not starting with "ID", passes no test of the main loop |
| BlockLayout.QuietNotHeader | app.py:144-157 | a token that is plain, or name-like and not followed by "ID…", passes no test of the main loop |
| BlockLayout.HeaderNoIdStart | app.py:146-152 | a header spelling does not start with "ID" |
| BlockLayout.NumberNoIdStart | app.py:146-152 | a number does not start with "ID" |
| BlockLayout.HeaderAfterPlain | app.py:143-171 | a header spelling preceded only by tokens that pass no test of the main loop is the header |
| BlockLayout.DigitsPlain | app.py:144-189 | a count token is neither a header candidate nor a column heading |
| BlockLayout.ColumnHeadPlain | app.py:144-189 | a column heading is never a header candidate |
| BlockLayout.InterleaveAlternates | app.py:192-205 | laid-out pairs alternate numbers and name-like tokens, each name followed by a number or by nothing |
| BlockLayout.InterleaveNoHeading | app.py:184-189 | no token of laid-out pairs is a column heading when no name is one |
| BlockLayout.LeftPlain | app.py:144-157 | before a tail not starting with "ID", no token of headings and name-like pairs passes a test of the main loop |
| BlockLayout.CleanOfLayout | app.py:184-189 | dropping headings from `headings + pairs` leaves the pairs, whatever the names are as long as none is a column heading |
| BlockLayout.LeftOfLayout | app.py:173-205 | in `headings + pairs + tail`, with name-like names (no column heading, no header spelling; "R…" and "RD…" names included) and a tail opening with a header spelling, the pairs are read back and the filtered tail is the right segment |
| BlockLayout.HeaderWords | app.py:180 | "RD" and "ID" are dropped from the right segment, "RDID" is not |
| BlockLayout.HeaderSpellings | app.py:145-146 | "RD" and "RDID" are header spellings |
| BlockLayout.HeaderWordsStripped | app.py:180 | filtering "RD" "ID" followed by labels leaves the labels |
| BlockLayout.BlockOfLayout | app.py:127-216 | a report `headings, count name …, RD ID, labels` with name-like names is read as the pairs zipped with the labels |
| BlockLayout.GluedHeaderLayout | app.py:127-216 | with the header printed as "RDID" and name-like names, that token becomes the first type label |
| BlockLayout.GluedLabel | app.py:180-208 | "RDID" survives both right-segment filters |
| BlockLayout.LabelsKept | app.py:180-208 | labels survive both right-segment filters |
| BlockLayout.GluedHeaderKept | app.py:180-208 | "RDID" followed by labels survives both filters unchanged |
| BlockLayout.CountHeading | app.py:185-187 | "AnzahlvonSCHADEN" is a column heading |
| BlockLayout.OwnerHeading | app.py:185-187 | "ZUSTAENDIG" is a column heading |
| BlockLayout.OwnerHeadingWithUmlaut | app.py:185-187 | "Zuständig" folds to "ZUSTAENDIG" and is skipped |
| BlockLayout.CountHeadingWithUmlautKept | app.py:185-187 | "AnzahlvonSchäden" folds to "ANZAHLVONSCHAEDEN", which is not in the list, so it is not skipped |
| BlockLayout.NotHeadingByFirst | app.py:185-187 | a token not starting with A, Z or an umlaut is no column heading |
| BlockLayout.ReportBlockExample | app.py:127-216 | the docstring's report (line 130) gives `(316, JHackenbroich, Regulierer)` and `(169, JHackenbroich, Sachverständiger)` |
| Books.IncrBooks | app.py:219-225 | `incr`: the total becomes the old value (0 if absent) plus `n`; the type map exists afterwards; the type's subtotal grows by `n` only for a non-empty type; nothing else changes; one history entry is appended |
| Books.SetBooks | app.py:227-230 | `set_count` overwrites the total and replaces the type map by the given one, empty if none; nothing else changes; one history entry |
| Books.RemoveBooks | app.py:232-235 | `remove_employee` deletes both keys, is a no-op on the maps for an absent name, and appends one history entry |
| Books.AddEmployee | app.py:316-325 | refused for an empty name and for an existing one, leaving everything as it was; otherwise the employee starts at 0 with no types and no history entry |
| Books.AddKnown | app.py:47-49 | the registry keeps its entries, gains the label exactly when it is non-empty and new, and stays free of duplicates |
| Books.DefaultTypesDistinct | app.py:34 | the two default types are distinct |
| Books.IncrEffect | app.py:219-225 | `incr` moves the employee's total by `n` and, for a non-empty type, that subtotal by `n`; no other counter moves |
| Books.IncrAdds | app.py:219-225 | two bookings of `m` and `n` leave every counter as one booking of `m + n` |
| Books.RemoveForgetsIncr | app.py:219-235 | removing an employee forgets a booking made before |
| Books.SetOverridesIncr | app.py:219-230 | `set_count` discards a booking made before |
| Batch.ParseText | app.py:252-258 | defines what one text contributes: nothing when empty, else the row parser's records, else the block parser's; `ParseTextTyped` states its properties |
| Batch.Parsed | app.py:247-258 | defines the records of all texts, in text order |
| Batch.Position | app.py:261-263 | a found position holds an entry with the key; no result means no entry has it |
| Batch.FindName | app.py:261 | defines the lookup of `aggregated[name]` as a `Position` by name |
| Batch.FindLabel | app.py:263 | defines the lookup of `types[rdid]` as a `Position` by type |
| Batch.AddSub | app.py:263 | a type subtotal is updated in place or appended |
| Batch.AddSubSums | app.py:263 | adding to a type subtotal raises the sum of subtotals and that type's subtotal by the count |
| Batch.Grow | app.py:261-263 | defines one record's effect on its employee's entry: the total grows by the count, and the type's subtotal when the record has a type; `GrowSums` states its properties |
| Batch.AddRecord | app.py:260-263 | the aggregate gains at most one entry, keeps its names in place, contains the record's name afterwards, and keeps names distinct |
| Batch.AddRecords | app.py:260-263 | defines the aggregate after a run of records, one record at a time |
| Batch.Aggregate | app.py:247-263 | defines `aggregated`: the records added to an empty aggregate; `AggregateTotals`, `AggregateTyped`, `AggregateTypeCounts`, `AggregateHasTypes`, `AggregateNames` and `AggregateDistinct` state its properties |
| Batch.KnownAfter | app.py:264-265 | defines the registry after a run of records: each new non-empty type appended; `KnownAfterFacts` states its properties |
| Batch.AddRecordsAppend | app.py:260-263 | aggregating two runs of records is aggregating the first, then the second |
| Batch.KnownAfterAppend | app.py:264-265 | registering two runs of types is registering the first, then the second |
| Batch.AddRecordEntry | app.py:260-263 | a record grows its own employee's entry (the default entry if new) and no other |
| Batch.GrowSums | app.py:261-263 | growing an entry adds the count to its total, to its typed sum and to its type's subtotal for a typed record; it has types afterwards exactly when it had or the record has one |
| Batch.AddRecordEffect | app.py:260-263 | one record moves only its own employee's total, typed sum, type subtotal and has-types flag |
| Batch.AggregateTotals | app.py:260-261 | each employee's aggregated total is the sum of their counts |
| Batch.AggregateTyped | app.py:260-263 | each employee's subtotals add up to the sum of their typed counts |
| Batch.AggregateTypeCounts | app.py:260-263 | each aggregated type subtotal is the sum of that employee's counts of that type |
| Batch.AggregateHasTypes | app.py:262-263 | an employee has type subtotals exactly when one of their records has a type |
| Batch.AggregateNames | app.py:260-261 | the aggregate has an entry for exactly the employees named in the records |
| Batch.AggregateDistinct | app.py:260-261 | no employee has two entries |
| Batch.AggregateEmpty | app.py:267 | nothing is aggregated exactly when no record was found |
| Batch.BookSubs | app.py:272-274 | defines one `incr(name, c, t)` per type subtotal, in order |
| Batch.BookTally | app.py:271-276 | defines one employee's booking: the subtotals when there are any, else one `incr` of the total |
| Batch.BookAll | app.py:271-276 | defines the bookings of the entries in the aggregate's order; `BookAllEffect`, `BookAllHistory` and `BookAllSameKeys` state its properties |
| Batch.BookSubsStep | app.py:272-274 | booking one more subtotal is one more `incr` |
| Batch.BookSubsSameKeys | app.py:272-274 | booking subtotals keeps both counter maps on the same employees |
| Batch.BookAllSameKeys | app.py:271-276 | booking an aggregate keeps both counter maps on the same employees |
| Batch.BookSubsEffect | app.py:272-274 | booking one employee's subtotals moves their total by the subtotals' sum and each type by its subtotal, nobody else |
| Batch.BookTallyEffect | app.py:271-276 | booking one entry moves only that employee's counters, the total by what the entry books |
| Batch.BookAllEffect | app.py:271-276 | booking an aggregate gives each employee what their entry books and each type its aggregated subtotal |
| Batch.BookSubsHistory | app.py:272-274 | one history entry per subtotal, old entries kept |
| Batch.BookAllHistory | app.py:271-276 | the history keeps its entries and grows by one per subtotal, or one per employee without types |
| Batch.BatchBooking | app.py:246-276 | a batch raises each subtotal by the counts of that employee and type, and each total by the typed counts when there are any, else by all counts |
| Batch.BatchDropsUntyped | app.py:272-276 | for an employee with a typed record, the untyped counts are not booked |
| Batch.BatchAllTyped | app.py:260-276 | when every record has a type, each total grows by all the employee's counts |
| Batch.BatchOrderIndependent | app.py:246-276 | reordering the records changes no total and no subtotal |
| Batch.BatchResubmitted | app.py:246-276 | booking the same texts twice books every count twice |
| Batch.ParseTextTyped | app.py:252-258 | neither parser yields a record without a type |
| Batch.ParsedTyped | app.py:249-258 | no record of any text lacks a type |
| Batch.BatchOfTexts | app.py:246-276 | booking OCR texts raises each total by all of the employee's parsed counts and each subtotal by the counts of that type |
| Batch.KnownAfterFacts | app.py:264-265 | the registry keeps its entries in order, gains exactly the non-empty parsed types, and stays free of duplicates |
| Ledger.Ledger.Valid | app.py:26-34 | defines the invariant every operation keeps: both counter maps on the same employees, and no type registered twice; `Ledger.Ledger.PlusKeysDistinct` relies on it |
| Ledger.PlusKeys | app.py:296-299 | the "+1" button keys of one employee: one per registered type, each the fixed prefix `plus1_<name>_` followed by its type, so distinct types give distinct keys |
| Ledger.Ledger.PlusKeysDistinct | app.py:296-299 | in a valid session the per-type "+1" buttons of one employee have distinct widget keys, because the registry has no duplicates |
| Ledger.TotalKey | app.py:302 | the "+1 Gesamt" key: the per-type prefix `plus1_<name>_` followed by `__total` |
| Ledger.ButtonKeys | app.py:296-302 | all "+1" keys of one employee: the per-type keys, then the "+1 Gesamt" key |
| Ledger.ButtonKeysDistinct | app.py:296-302 | one employee's "+1" keys are distinct if and only if the types are distinct and none of them is `__total`; a registered `__total` gives a type button whose key is the "+1 Gesamt" key |
| Ledger.PlusKeysAcrossEmployees | app.py:299 | keys of different employees can coincide: type `c` of employee `a_b` and type `b_c` of employee `a` both give `plus1_a_b_c` |
| Ledger.Ledger.AllButtonKeysDistinct | app.py:296-302 | in a valid session with no registered type `__total`, all "+1" keys of an employee are distinct |
| Ledger.ReadText | app.py:252-258 | the records of one text: nothing for an empty text, else the row parser's, else the block parser's |
| Ledger.Ledger.constructor | app.py:26-34 | a fresh session has empty counters and history and the two default types |
| Ledger.Ledger.Incr | app.py:219-225 | the new state is `incr` applied to the old; the registry is unchanged; the invariant is kept |
| Ledger.Ledger.SetCount | app.py:227-230 | the new state is `set_count` applied to the old |
| Ledger.Ledger.RemoveEmployee | app.py:232-235 | the new state is `remove_employee` applied to the old |
| Ledger.Ledger.AddEmployee | app.py:316-325 | outcome and new state are the guard applied to the stripped input |
| Ledger.Ledger.AddType | app.py:46-49 | the registry gains the stripped label when it is non-empty and new; the counters are unchanged |
| Ledger.Ledger.ResetTypes | app.py:51-52 | the registry is back to the two defaults |
| Ledger.Ledger.Gather | app.py:260-265 | one text's records are aggregated and their types registered, in order; the counters are unchanged and the invariant is kept |
| Ledger.Ledger.Collect | app.py:247-265 | the loop over the texts builds the aggregate of all parsed records and registers their types; the counters are unchanged and the invariant is kept |
| Ledger.Ledger.BookEntry | app.py:272-276 | one employee's entry is booked by `incr` calls |
| Ledger.Ledger.BookAggregate | app.py:271-276 | the aggregate is booked entry by entry |
| Ledger.Ledger.BookTexts | app.py:246-276 | a batch reports success exactly when some record was parsed, books the aggregate of all parsed records, registers their types and keeps the invariant |

## Left out

- The Streamlit UI: pages, tabs, buttons, messages and the overview table (app.py:21-23, 39-55, 238-381). The button handlers appear only as the methods they call.
- OCR: `ocr_image` and the EasyOCR/Tesseract/PIL calls (app.py:9-19, 81-105) are foreign libraries and image I/O. `Ledger.BookTexts` takes the texts they would return, and an engine failure is an empty text.
- EasyOCR's results are joined with a literal backslash-n (app.py:92). Nothing normalises it, and the model reads the texts as given.
- The JSON state download and import (app.py:56-78), and the overview table and CSV export (app.py:340-381): serialisation and presentation.
- The `int()` casts in `incr` and `set_count` (app.py:220-230): the model's counts are already integers, so a float count that Python would truncate is not modelled.
- The `custom_regex` argument of the row parser: it would need a general regex engine. The model is the default pattern only.
- Unicode: `\w` and `\d` are modelled on ASCII plus ä, ö, ü, Ä, Ö, Ü and ß. Whitespace follows Python's `str.isspace`.
- Text.Upper: upper-cases only a–z, ä, ö and ü, so it never changes the length. Python's `upper()` also maps other letters, some of them onto ASCII: "ı" becomes "I", "ſ" becomes "S", "ß" becomes "SS", and ligatures such as "ﬁ" and "ﬆ" become "FI" and "ST". Such tokens behave differently in the header tests (app.py:145-157, 168), the right-segment filter (app.py:180) and the skip list (app.py:187). For example, "RD" followed by "ıD" is a header for Python at app.py:146 and app.py:152, because "ıD".upper() starts with "ID", but not for the model.
- Text.SplitLines: it cuts at every line-boundary character, so "\r\n", a trailing break and the empty text give extra empty pieces that Python's `splitlines` does not. The only caller drops empty lines, so the row parser's result is the same.
- Books.SetBooks: the history entry is a copy of the new type map. In Python it is the same dict object as `counts_by_type[name]`, so later `incr` calls on that employee also change the logged entry. Aliasing is not modelled.
- Per-type targets, a reserved-employee reduction, a rotation scheduler and a clamped decrement: app.py has no code for any of them, and `incr` has no floor.
- Ledger.Ledger.PlusKeysDistinct: covers only the per-type keys of one employee. The "+1 Gesamt" key clashes with the key of a registered type `__total`, which the sidebar (app.py:47-49) and the parsers (app.py:180, 208) both accept; `Ledger.ButtonKeysDistinct` states this. Keys of different employees can also clash (`Ledger.PlusKeysAcrossEmployees`), so app.py does not guarantee the page-wide unique keys Streamlit needs.
- The `st.json` summary of the aggregate (app.py:277): display only.
