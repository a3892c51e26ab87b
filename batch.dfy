/** The batch booking of app.py (lines 246-276): every non-empty OCR text is parsed
    row-wise, or block-wise when that finds nothing; the records of all texts are
    summed per employee and per type (`aggregated`, a dictionary of totals and type
    subtotals in first-seen order), every new type label is registered, and then one
    `incr` is booked per type subtotal, or one for the total of an employee without
    types. The functions here are the specification the `Ledger` class is proved
    against; the lemmas say what the booking amounts to. */
module Batch {
  import opened Util
  import opened Text
  import opened Records
  import opened RowParser
  import opened BlockParser
  import opened Books

  // ---------------------------------------------------------------- parsing the texts

  /** Lines 252-258: an empty text is skipped; otherwise the row parser is tried first
      and the block parser only when it finds nothing. */
  function ParseText(txt: string): seq<Record> {
    if txt == [] then []
    else if RowStyle(txt) != [] then RowStyle(txt)
    else BlockStyle(txt)
  }

  /** The records of all texts, in text order. */
  function Parsed(texts: seq<string>): seq<Record> {
    FlatMap(texts, ParseText)
  }

  // ---------------------------------------------------------------- the aggregate

  /** One entry `types[rdid] = count` of an employee's type subtotals. */
  datatype Sub = Sub(rdid: string, count: nat)

  /** One entry `aggregated[name] = {"total": total, "types": types}`. */
  datatype Tally = Tally(name: string, total: nat, types: seq<Sub>)

  /** The position of an entry whose key is `k`, if any: a dictionary lookup on
      entries kept in insertion order. */
  function Position<T>(xs: seq<T>, key: T -> string, k: string): (r: Option<nat>)
    ensures r.Some? ==> r.value < |xs| && key(xs[r.value]) == k
    ensures r.None? ==> forall j :: 0 <= j < |xs| ==> key(xs[j]) != k
  {
    if xs == [] then None
    else if key(xs[|xs| - 1]) == k then Some(|xs| - 1)
    else Position(xs[..|xs| - 1], key, k)
  }

  function RdidOf(s: Sub): string {
    s.rdid
  }

  function NameOf(e: Tally): string {
    e.name
  }

  /** The position of `rdid` among the subtotals, if any. */
  function FindLabel(subs: seq<Sub>, rdid: string): Option<nat> {
    Position(subs, RdidOf, rdid)
  }

  /** The position of `name` in the aggregate, if any. */
  function FindName(agg: seq<Tally>, name: string): Option<nat> {
    Position(agg, NameOf, name)
  }

  predicate DistinctNames(agg: seq<Tally>) {
    forall i, j :: 0 <= i < j < |agg| ==> agg[i].name != agg[j].name
  }

  /** `types[rdid] += c` on a `defaultdict(int)`. */
  function AddSub(subs: seq<Sub>, rdid: string, c: nat): (r: seq<Sub>)
    ensures |r| == |subs| || r == subs + [Sub(rdid, c)]
  {
    match FindLabel(subs, rdid)
    case Some(j) => subs[j := Sub(rdid, subs[j].count + c)]
    case None => subs + [Sub(rdid, c)]
  }

  /** Lines 261-263 applied to an employee's entry: the total grows by the count and,
      when the record has a type, so does that type's subtotal. */
  function Grow(e: Tally, r: Record): Tally {
    Tally(e.name, e.total + r.count, if r.rdid != [] then AddSub(e.types, r.rdid, r.count) else e.types)
  }

  /** Lines 260-263 for one record: `aggregated[name]` is grown, and an unseen
      employee is first given the `defaultdict` entry with total 0 and no types, at
      the end. */
  function AddRecord(agg: seq<Tally>, r: Record): (a: seq<Tally>)
    ensures |agg| <= |a| <= |agg| + 1
    ensures forall i :: 0 <= i < |agg| ==> a[i].name == agg[i].name
    ensures FindName(a, r.name).Some?
    ensures DistinctNames(agg) ==> DistinctNames(a)
  {
    match FindName(agg, r.name)
    case Some(i) => agg[i := Grow(agg[i], r)]
    case None => agg + [Grow(Tally(r.name, 0, []), r)]
  }

  /** The records `rs` added to `agg`, one after the other. */
  function AddRecords(agg: seq<Tally>, rs: seq<Record>): seq<Tally> {
    if rs == [] then agg else AddRecord(AddRecords(agg, rs[..|rs| - 1]), rs[|rs| - 1])
  }

  /** `aggregated` after the records `rs`. */
  function Aggregate(rs: seq<Record>): seq<Tally> {
    AddRecords([], rs)
  }

  lemma {:induction false} AddRecordsAppend(agg: seq<Tally>, a: seq<Record>, b: seq<Record>)
    ensures AddRecords(agg, a + b) == AddRecords(AddRecords(agg, a), b)
  {
    if b == [] {
      assert a + b == a;
    } else {
      var n := |b| - 1;
      assert (a + b)[..|a + b| - 1] == a + b[..n];
      AddRecordsAppend(agg, a, b[..n]);
    }
  }

  // ---------------------------------------------------------------- sums over the records

  function NameCounter(k: string): Record -> int {
    (r: Record) => if r.name == k then r.count else 0
  }

  function TypedCounter(k: string): Record -> int {
    (r: Record) => if r.name == k && r.rdid != [] then r.count else 0
  }

  function UntypedCounter(k: string): Record -> int {
    (r: Record) => if r.name == k && r.rdid == [] then r.count else 0
  }

  function PairCounter(k: string, t: string): Record -> int {
    (r: Record) => if r.name == k && r.rdid == t && t != [] then r.count else 0
  }

  /** What the records give employee `k` in all. */
  function SumName(rs: seq<Record>, k: string): int {
    SumOf(rs, NameCounter(k))
  }

  /** ... in records that carry a type. */
  function SumTyped(rs: seq<Record>, k: string): int {
    SumOf(rs, TypedCounter(k))
  }

  /** ... in records without a type. */
  function SumUntyped(rs: seq<Record>, k: string): int {
    SumOf(rs, UntypedCounter(k))
  }

  /** ... for type `t`. */
  function SumPair(rs: seq<Record>, k: string, t: string): int {
    SumOf(rs, PairCounter(k, t))
  }

  predicate HasTyped(rs: seq<Record>, k: string) {
    exists i :: 0 <= i < |rs| && rs[i].name == k && rs[i].rdid != []
  }

  // ---------------------------------------------------------------- queries on the aggregate

  function CountOf(s: Sub): int {
    s.count
  }

  function LabelCounter(t: string): Sub -> int {
    (s: Sub) => if s.rdid == t then s.count else 0
  }

  function SubsTotal(subs: seq<Sub>): int {
    SumOf(subs, CountOf)
  }

  function SubsCount(subs: seq<Sub>, t: string): int {
    SumOf(subs, LabelCounter(t))
  }

  /** `aggregated[k]`, the default entry when `k` is not in it. */
  function Entry(agg: seq<Tally>, k: string): Tally {
    match FindName(agg, k)
    case Some(i) => agg[i]
    case None => Tally(k, 0, [])
  }

  function NameTotal(agg: seq<Tally>, k: string): int {
    Entry(agg, k).total
  }

  function NameTyped(agg: seq<Tally>, k: string): int {
    SubsTotal(Entry(agg, k).types)
  }

  function TypeCount(agg: seq<Tally>, k: string, t: string): int {
    SubsCount(Entry(agg, k).types, t)
  }

  predicate NameHasTypes(agg: seq<Tally>, k: string) {
    Entry(agg, k).types != []
  }

  // ---------------------------------------------------------------- booking the aggregate

  /** Lines 272-274: one `incr(name, c, t)` per type subtotal, in order. */
  function BookSubs(b: Book, name: string, subs: seq<Sub>): Book {
    if subs == [] then b
    else
      var last := subs[|subs| - 1];
      IncrBooks(BookSubs(b, name, subs[..|subs| - 1]), name, last.count, Some(last.rdid))
  }

  /** Lines 272-276 for one employee: the types when there are any, else the total. */
  function BookTally(b: Book, e: Tally): Book {
    if e.types != [] then BookSubs(b, e.name, e.types) else IncrBooks(b, e.name, e.total, None)
  }

  /** Lines 271-276: the employees in the aggregate's order. */
  function BookAll(b: Book, agg: seq<Tally>): Book {
    if agg == [] then b else BookTally(BookAll(b, agg[..|agg| - 1]), agg[|agg| - 1])
  }

  /** Booking one more type subtotal is one more `incr`. */
  lemma BookSubsStep(b: Book, name: string, subs: seq<Sub>, s: nat)
    requires s < |subs|
    ensures BookSubs(b, name, subs[..s + 1])
      == IncrBooks(BookSubs(b, name, subs[..s]), name, subs[s].count, Some(subs[s].rdid))
  {
    assert subs[..s + 1][..s] == subs[..s];
  }

  /** Booking keeps both counter maps on the same employees. */
  lemma {:induction false} BookSubsSameKeys(b: Book, name: string, subs: seq<Sub>)
    requires SameKeys(b)
    ensures SameKeys(BookSubs(b, name, subs))
  {
    if subs != [] {
      BookSubsSameKeys(b, name, subs[..|subs| - 1]);
    }
  }

  lemma {:induction false} BookAllSameKeys(b: Book, agg: seq<Tally>)
    requires SameKeys(b)
    ensures SameKeys(BookAll(b, agg))
  {
    if agg != [] {
      var e := agg[|agg| - 1];
      var before := BookAll(b, agg[..|agg| - 1]);
      BookAllSameKeys(b, agg[..|agg| - 1]);
      if e.types != [] {
        BookSubsSameKeys(before, e.name, e.types);
      }
    }
  }

  /** What one employee's entry adds to their total. */
  function TallyBooked(e: Tally): int {
    if e.types != [] then SubsTotal(e.types) else e.total
  }

  function NameBooked(agg: seq<Tally>, k: string): int {
    TallyBooked(Entry(agg, k))
  }

  /** The number of `incr` calls one entry makes. */
  function IncrCalls(e: Tally): int {
    if e.types != [] then |e.types| else 1
  }

  /** Lines 264-265, in record order. */
  function KnownAfter(known: seq<string>, rs: seq<Record>): seq<string> {
    if rs == [] then known else AddKnown(KnownAfter(known, rs[..|rs| - 1]), rs[|rs| - 1].rdid)
  }

  lemma {:induction false} KnownAfterAppend(known: seq<string>, a: seq<Record>, b: seq<Record>)
    ensures KnownAfter(known, a + b) == KnownAfter(KnownAfter(known, a), b)
  {
    if b == [] {
      assert a + b == a;
    } else {
      var n := |b| - 1;
      assert (a + b)[..|a + b| - 1] == a + b[..n];
      KnownAfterAppend(known, a, b[..n]);
    }
  }

  // ---------------------------------------------------------------- the aggregate's sums

  /** Updating an entry without renaming it moves no name. */
  lemma {:induction false} FindNameUpdate(agg: seq<Tally>, i: nat, e: Tally, k: string)
    requires i < |agg| && e.name == agg[i].name
    ensures FindName(agg[i := e], k) == FindName(agg, k)
  {
    var n := |agg| - 1;
    if i < n {
      assert agg[i := e][..n] == agg[..n][i := e];
      FindNameUpdate(agg[..n], i, e, k);
    } else {
      assert agg[i := e][..n] == agg[..n];
    }
  }

  lemma FindNameSnoc(agg: seq<Tally>, e: Tally, k: string)
    ensures FindName(agg + [e], k) == if e.name == k then Some(|agg|) else FindName(agg, k)
  {
    assert (agg + [e])[..|agg|] == agg;
  }

  lemma AddSubSums(subs: seq<Sub>, rdid: string, c: nat, t: string)
    ensures SubsTotal(AddSub(subs, rdid, c)) == SubsTotal(subs) + c
    ensures SubsCount(AddSub(subs, rdid, c), t) == SubsCount(subs, t) + (if rdid == t then c else 0)
  {
    match FindLabel(subs, rdid)
    case Some(j) =>
      SumOfUpdate(subs, j, Sub(rdid, subs[j].count + c), CountOf);
      SumOfUpdate(subs, j, Sub(rdid, subs[j].count + c), LabelCounter(t));
    case None =>
      SumOfSnoc(subs, Sub(rdid, c), CountOf);
      SumOfSnoc(subs, Sub(rdid, c), LabelCounter(t));
  }

  /** One record grows its own employee's entry and no other. */
  lemma AddRecordEntry(agg: seq<Tally>, r: Record, k: string)
    ensures Entry(AddRecord(agg, r), k) == if r.name == k then Grow(Entry(agg, k), r) else Entry(agg, k)
  {
    match FindName(agg, r.name)
    case Some(i) =>
      FindNameUpdate(agg, i, Grow(agg[i], r), k);
    case None =>
      FindNameSnoc(agg, Grow(Tally(r.name, 0, []), r), k);
  }

  /** Growing an entry adds the record's count to the total, to the typed total when
      it has a type, and to the subtotal of its type; it leaves types behind exactly
      when there were some or the record has one. */
  lemma GrowSums(e: Tally, r: Record, t: string)
    ensures Grow(e, r).total == e.total + r.count
    ensures SubsTotal(Grow(e, r).types) == SubsTotal(e.types) + (if r.rdid != [] then r.count else 0)
    ensures SubsCount(Grow(e, r).types, t) == SubsCount(e.types, t) + (if r.rdid == t && t != [] then r.count else 0)
    ensures Grow(e, r).types != [] <==> e.types != [] || r.rdid != []
  {
    if r.rdid != [] {
      AddSubSums(e.types, r.rdid, r.count, t);
    }
  }

  lemma AddRecordEffect(agg: seq<Tally>, r: Record, k: string, t: string)
    ensures NameTotal(AddRecord(agg, r), k) == NameTotal(agg, k) + NameCounter(k)(r)
    ensures NameTyped(AddRecord(agg, r), k) == NameTyped(agg, k) + TypedCounter(k)(r)
    ensures TypeCount(AddRecord(agg, r), k, t) == TypeCount(agg, k, t) + PairCounter(k, t)(r)
    ensures NameHasTypes(AddRecord(agg, r), k) <==> NameHasTypes(agg, k) || (r.name == k && r.rdid != [])
  {
    AddRecordEntry(agg, r, k);
    GrowSums(Entry(agg, k), r, t);
  }

  /** The aggregate holds, for every employee, the sum of their counts ... */
  lemma {:induction false} AggregateTotals(rs: seq<Record>, k: string)
    ensures NameTotal(Aggregate(rs), k) == SumName(rs, k)
  {
    if rs != [] {
      var n := |rs| - 1;
      AggregateTotals(rs[..n], k);
      AddRecordEffect(Aggregate(rs[..n]), rs[n], k, []);
    }
  }

  /** ... the sum of their typed counts ... */
  lemma {:induction false} AggregateTyped(rs: seq<Record>, k: string)
    ensures NameTyped(Aggregate(rs), k) == SumTyped(rs, k)
  {
    if rs != [] {
      var n := |rs| - 1;
      AggregateTyped(rs[..n], k);
      AddRecordEffect(Aggregate(rs[..n]), rs[n], k, []);
    }
  }

  /** ... their per-type sums ... */
  lemma {:induction false} AggregateTypeCounts(rs: seq<Record>, k: string, t: string)
    ensures TypeCount(Aggregate(rs), k, t) == SumPair(rs, k, t)
  {
    if rs != [] {
      var n := |rs| - 1;
      AggregateTypeCounts(rs[..n], k, t);
      AddRecordEffect(Aggregate(rs[..n]), rs[n], k, t);
    }
  }

  /** ... and it has types for them exactly when some record of theirs has one. */
  lemma {:induction false} AggregateHasTypes(rs: seq<Record>, k: string)
    ensures NameHasTypes(Aggregate(rs), k) <==> HasTyped(rs, k)
  {
    if rs != [] {
      var n := |rs| - 1;
      AggregateHasTypes(rs[..n], k);
      AddRecordEffect(Aggregate(rs[..n]), rs[n], k, []);
      HasTypedLast(rs, k);
    }
  }

  lemma HasTypedLast(rs: seq<Record>, k: string)
    requires rs != []
    ensures var n := |rs| - 1;
      HasTyped(rs, k) <==> HasTyped(rs[..n], k) || (rs[n].name == k && rs[n].rdid != [])
  {
    var n := |rs| - 1;
    if HasTyped(rs[..n], k) {
      var i :| 0 <= i < n && rs[..n][i].name == k && rs[..n][i].rdid != [];
      assert rs[i] == rs[..n][i];
    }
    if HasTyped(rs, k) && !(rs[n].name == k && rs[n].rdid != []) {
      var i :| 0 <= i < |rs| && rs[i].name == k && rs[i].rdid != [];
      assert i < n && rs[..n][i] == rs[i];
    }
  }

  predicate Names(rs: seq<Record>, k: string) {
    exists i :: 0 <= i < |rs| && rs[i].name == k
  }

  lemma NamesLast(rs: seq<Record>, k: string)
    requires rs != []
    ensures var n := |rs| - 1; Names(rs, k) <==> Names(rs[..n], k) || rs[n].name == k
  {
    var n := |rs| - 1;
    if Names(rs[..n], k) {
      var i :| 0 <= i < n && rs[..n][i].name == k;
      assert rs[i] == rs[..n][i];
    }
    if Names(rs, k) && rs[n].name != k {
      var i :| 0 <= i < |rs| && rs[i].name == k;
      assert i < n && rs[..n][i] == rs[i];
    }
  }

  /** A record's employee is in the aggregate after it, and nobody else joins. */
  lemma AddRecordNames(agg: seq<Tally>, r: Record, k: string)
    ensures FindName(AddRecord(agg, r), k).Some? <==> FindName(agg, k).Some? || r.name == k
  {
    match FindName(agg, r.name)
    case Some(i) => FindNameUpdate(agg, i, Grow(agg[i], r), k);
    case None => FindNameSnoc(agg, Grow(Tally(r.name, 0, []), r), k);
  }

  /** The aggregate has one entry per employee named in the records and none for
      anyone else. */
  lemma {:induction false} AggregateNames(rs: seq<Record>, k: string)
    ensures FindName(Aggregate(rs), k).Some? <==> Names(rs, k)
  {
    if rs != [] {
      var n := |rs| - 1;
      AggregateNames(rs[..n], k);
      AddRecordNames(Aggregate(rs[..n]), rs[n], k);
      NamesLast(rs, k);
    }
  }

  lemma {:induction false} AggregateDistinct(rs: seq<Record>)
    ensures DistinctNames(Aggregate(rs))
  {
    if rs != [] {
      AggregateDistinct(rs[..|rs| - 1]);
    }
  }

  /** Line 267: nothing is aggregated exactly when no record was found. */
  lemma AggregateEmpty(rs: seq<Record>)
    ensures Aggregate(rs) == [] <==> rs == []
  {
  }

  // ---------------------------------------------------------------- what booking does

  /** Booking the subtotals of one employee moves their total by the subtotals' sum
      and each type's subtotal by that type's entries, and nobody else's counters. */
  lemma {:induction false} BookSubsEffect(b: Book, name: string, subs: seq<Sub>, k: string, t: string)
    ensures Total(BookSubs(b, name, subs), k) == Total(b, k) + (if k == name then SubsTotal(subs) else 0)
    ensures Subtotal(BookSubs(b, name, subs), k, t)
         == Subtotal(b, k, t) + (if k == name && t != [] then SubsCount(subs, t) else 0)
  {
    if subs != [] {
      var n := |subs| - 1;
      BookSubsEffect(b, name, subs[..n], k, t);
      IncrEffect(BookSubs(b, name, subs[..n]), name, subs[n].count, Some(subs[n].rdid), k, t);
    }
  }

  lemma BookTallyEffect(b: Book, e: Tally, k: string, t: string)
    ensures Total(BookTally(b, e), k) == Total(b, k) + (if k == e.name then TallyBooked(e) else 0)
    ensures Subtotal(BookTally(b, e), k, t)
         == Subtotal(b, k, t) + (if k == e.name && t != [] then SubsCount(e.types, t) else 0)
  {
    if e.types != [] {
      BookSubsEffect(b, e.name, e.types, k, t);
    } else {
      IncrEffect(b, e.name, e.total, None, k, t);
    }
  }

  /** The last entry is the one for its name; with distinct names no earlier entry
      is. */
  lemma EntryLast(agg: seq<Tally>, k: string)
    requires agg != [] && DistinctNames(agg)
    ensures var n := |agg| - 1;
      Entry(agg, k) == if agg[n].name == k then agg[n] else Entry(agg[..n], k)
    ensures var n := |agg| - 1; agg[n].name == k ==> Entry(agg[..n], k) == Tally(k, 0, [])
  {
    var n := |agg| - 1;
    match FindName(agg[..n], k)
    case Some(i) => assert agg[..n][i] == agg[i];
    case None =>
  }

  /** Booking an aggregate with distinct names gives every employee what their entry
      books, and every type the subtotal their entry holds for it. */
  lemma {:induction false} BookAllEffect(b: Book, agg: seq<Tally>, k: string, t: string)
    requires DistinctNames(agg)
    ensures Total(BookAll(b, agg), k) == Total(b, k) + NameBooked(agg, k)
    ensures Subtotal(BookAll(b, agg), k, t) == Subtotal(b, k, t) + (if t != [] then TypeCount(agg, k, t) else 0)
  {
    if agg != [] {
      var n := |agg| - 1;
      BookAllEffect(b, agg[..n], k, t);
      BookTallyEffect(BookAll(b, agg[..n]), agg[n], k, t);
      EntryLast(agg, k);
    }
  }

  lemma {:induction false} BookSubsHistory(b: Book, name: string, subs: seq<Sub>)
    ensures b.history <= BookSubs(b, name, subs).history
    ensures |BookSubs(b, name, subs).history| == |b.history| + |subs|
  {
    if subs != [] {
      BookSubsHistory(b, name, subs[..|subs| - 1]);
    }
  }

  /** Every `incr` appends one history entry: the history grows by one entry per type
      subtotal, or one for an employee without types, and keeps what it had. */
  lemma {:induction false} BookAllHistory(b: Book, agg: seq<Tally>)
    ensures b.history <= BookAll(b, agg).history
    ensures |BookAll(b, agg).history| == |b.history| + SumOf(agg, IncrCalls)
  {
    if agg != [] {
      var n := |agg| - 1;
      BookAllHistory(b, agg[..n]);
      var e := agg[n];
      if e.types != [] {
        BookSubsHistory(BookAll(b, agg[..n]), e.name, e.types);
      }
    }
  }

  // ---------------------------------------------------------------- the batch as a whole

  /** What a batch of records does to the ledger: each employee's subtotal for a type
      grows by the counts of their records of that type; their total grows by the
      counts of their typed records when they have any, else by all their counts. */
  lemma BatchBooking(b: Book, rs: seq<Record>, k: string, t: string)
    ensures Total(BookAll(b, Aggregate(rs)), k)
         == Total(b, k) + (if HasTyped(rs, k) then SumTyped(rs, k) else SumName(rs, k))
    ensures Subtotal(BookAll(b, Aggregate(rs)), k, t) == Subtotal(b, k, t) + SumPair(rs, k, t)
  {
    AggregateDistinct(rs);
    BookAllEffect(b, Aggregate(rs), k, t);
    AggregateTotals(rs, k);
    AggregateTyped(rs, k);
    AggregateTypeCounts(rs, k, t);
    AggregateHasTypes(rs, k);
    if t == [] {
      SumOfZero(rs, PairCounter(k, t));
    }
  }

  /** Lines 272-276 book only the type subtotals of an employee who has any: counts
      of their records without a type are then lost. */
  lemma BatchDropsUntyped(b: Book, rs: seq<Record>, k: string)
    requires HasTyped(rs, k)
    ensures Total(BookAll(b, Aggregate(rs)), k) == Total(b, k) + SumName(rs, k) - SumUntyped(rs, k)
  {
    BatchBooking(b, rs, k, []);
    SumOfSplit(rs, NameCounter(k), TypedCounter(k), UntypedCounter(k));
  }

  /** When every record has a type, every employee's total grows by all their
      counts. */
  lemma BatchAllTyped(b: Book, rs: seq<Record>, k: string)
    requires forall i :: 0 <= i < |rs| ==> rs[i].rdid != []
    ensures Total(BookAll(b, Aggregate(rs)), k) == Total(b, k) + SumName(rs, k)
  {
    BatchBooking(b, rs, k, []);
    SumOfPointwise(rs, TypedCounter(k), NameCounter(k));
  }

  lemma HasTypedPermutation(rs: seq<Record>, qs: seq<Record>, k: string)
    requires multiset(rs) == multiset(qs)
    ensures HasTyped(rs, k) ==> HasTyped(qs, k)
  {
    if HasTyped(rs, k) {
      var i :| 0 <= i < |rs| && rs[i].name == k && rs[i].rdid != [];
      assert rs[i] in multiset(qs);
      var j :| 0 <= j < |qs| && qs[j] == rs[i];
    }
  }

  /** The order of the records (of the images, of the lines) changes no counter. */
  lemma BatchOrderIndependent(b: Book, rs: seq<Record>, qs: seq<Record>, k: string, t: string)
    requires multiset(rs) == multiset(qs)
    ensures Total(BookAll(b, Aggregate(rs)), k) == Total(BookAll(b, Aggregate(qs)), k)
    ensures Subtotal(BookAll(b, Aggregate(rs)), k, t) == Subtotal(BookAll(b, Aggregate(qs)), k, t)
  {
    BatchBooking(b, rs, k, t);
    BatchBooking(b, qs, k, t);
    HasTypedPermutation(rs, qs, k);
    HasTypedPermutation(qs, rs, k);
    SumOfPermutation(rs, qs, NameCounter(k));
    SumOfPermutation(rs, qs, TypedCounter(k));
    SumOfPermutation(rs, qs, PairCounter(k, t));
  }

  /** Booking is not idempotent: submitting the same texts again books every count a
      second time. */
  lemma BatchResubmitted(b: Book, texts: seq<string>, k: string, t: string)
    ensures var agg := Aggregate(Parsed(texts));
      && Total(BookAll(BookAll(b, agg), agg), k) == Total(b, k) + 2 * SumName(Parsed(texts), k)
      && Subtotal(BookAll(BookAll(b, agg), agg), k, t) == Subtotal(b, k, t) + 2 * SumPair(Parsed(texts), k, t)
  {
    var agg := Aggregate(Parsed(texts));
    BatchOfTexts(b, texts, k, t);
    BatchOfTexts(BookAll(b, agg), texts, k, t);
  }

  // ---------------------------------------------------------------- parsed texts

  predicate Typed(r: Record) {
    r.rdid != []
  }

  lemma LineRecordsTyped(line: string)
    ensures forall k :: 0 <= k < |LineRecords(line)| ==> Typed(LineRecords(line)[k])
  {
  }

  /** Neither parser gives a record without a type. */
  lemma ParseTextTyped(txt: string)
    ensures forall k :: 0 <= k < |ParseText(txt)| ==> Typed(ParseText(txt)[k])
  {
    if txt != [] {
      if RowStyle(txt) != [] {
        var lines := Lines(txt);
        forall i | 0 <= i < |lines|
          ensures forall k :: 0 <= k < |LineRecords(lines[i])| ==> Typed(LineRecords(lines[i])[k])
        {
          LineRecordsTyped(lines[i]);
        }
        FlatMapAll(lines, LineRecords, Typed);
      } else {
        var toks := Tokens(txt);
        if toks != [] {
          BlockFiltering(toks);
        }
      }
    }
  }

  lemma ParsedTyped(texts: seq<string>)
    ensures forall k :: 0 <= k < |Parsed(texts)| ==> Typed(Parsed(texts)[k])
  {
    forall i | 0 <= i < |texts|
      ensures forall k :: 0 <= k < |ParseText(texts[i])| ==> Typed(ParseText(texts[i])[k])
    {
      ParseTextTyped(texts[i]);
    }
    FlatMapAll(texts, ParseText, Typed);
  }

  /** Booking a batch of OCR texts: as every parsed record has a type, each employee's
      total grows by all their counts in all texts, and each subtotal by the counts
      of that type. */
  lemma BatchOfTexts(b: Book, texts: seq<string>, k: string, t: string)
    ensures Total(BookAll(b, Aggregate(Parsed(texts))), k) == Total(b, k) + SumName(Parsed(texts), k)
    ensures Subtotal(BookAll(b, Aggregate(Parsed(texts))), k, t) == Subtotal(b, k, t) + SumPair(Parsed(texts), k, t)
  {
    ParsedTyped(texts);
    BatchAllTyped(b, Parsed(texts), k);
    BatchBooking(b, Parsed(texts), k, t);
  }

  // ---------------------------------------------------------------- known types

  predicate RdidIn(rs: seq<Record>, u: string) {
    exists i :: 0 <= i < |rs| && rs[i].rdid == u
  }

  lemma RdidLast(rs: seq<Record>, u: string)
    requires rs != []
    ensures var n := |rs| - 1; RdidIn(rs, u) <==> RdidIn(rs[..n], u) || rs[n].rdid == u
  {
    var n := |rs| - 1;
    if RdidIn(rs[..n], u) {
      var i :| 0 <= i < n && rs[..n][i].rdid == u;
      assert rs[i] == rs[..n][i];
    }
    if RdidIn(rs, u) && rs[n].rdid != u {
      var i :| 0 <= i < |rs| && rs[i].rdid == u;
      assert i < n && rs[..n][i] == rs[i];
    }
  }

  /** Lines 264-265: the registry keeps its entries in order, gains exactly the
      non-empty types of the records, and stays free of duplicates. */
  lemma {:induction false} KnownAfterFacts(known: seq<string>, rs: seq<Record>, u: string)
    ensures known <= KnownAfter(known, rs)
    ensures u in KnownAfter(known, rs) <==> u in known || (u != [] && RdidIn(rs, u))
    ensures NoDup(known) ==> NoDup(KnownAfter(known, rs))
  {
    if rs != [] {
      var n := |rs| - 1;
      KnownAfterFacts(known, rs[..n], u);
      RdidLast(rs, u);
    }
  }
}

