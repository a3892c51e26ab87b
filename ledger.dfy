/** The session state of app.py as an object: the counters, the history and the
    registry of known types (lines 26-34), changed in place by the booking helpers
    (lines 219-235), the sidebar's type buttons (lines 46-52), the add-employee
    button (lines 316-325) and the batch booking of OCR texts (lines 246-276). Each
    method is proved against the functions of `Books` and `Batch`. */
module Ledger {
  import opened Util
  import opened Text
  import opened Records
  import opened RowParser
  import opened BlockParser
  import opened Books
  import opened Batch

  /** Lines 252-258 for one text: nothing for an empty text, else the row parser's
      records, or the block parser's when the row parser finds none. */
  method ReadText(txt: string) returns (rows: seq<Record>)
    ensures rows == ParseText(txt)
  {
    rows := [];
    if txt != [] {
      rows := ParseRowStyle(txt);
      if rows == [] {
        rows := ParseBlockStyle(txt);
      }
    }
  }

  /** The widget keys `f"plus1_{name}_{t}"` of the "+1" buttons drawn for one
      employee, one per registered type (lines 296-299). Each key is a fixed prefix
      followed by its type, so the keys are distinct when the types are. */
  function PlusKeys(name: string, types: seq<string>): (ks: seq<string>)
    ensures |ks| == |types|
    ensures forall i :: 0 <= i < |ks| ==> |ks[i]| >= |name| + 7 && ks[i][|name| + 7..] == types[i]
    ensures NoDup(types) ==> NoDup(ks)
  {
    var p := "plus1_" + name + "_";
    var ks := seq(|types|, i requires 0 <= i < |types| => p + types[i]);
    assert forall i :: 0 <= i < |ks| ==> ks[i][|p|..] == types[i];
    ks
  }

  /** The widget key `f"plus1_{name}___total"` of the "+1 Gesamt" button drawn
      after the per-type buttons (line 302). It is the per-type prefix followed by
      `__total`. */
  function TotalKey(name: string): (k: string)
    ensures |k| == |name| + 14 && k[..|name| + 7] == "plus1_" + name + "_"
    ensures k[|name| + 7..] == "__total"
  {
    var p := "plus1_" + name + "_";
    assert "plus1_" + name + "___total" == p + "__total";
    p + "__total"
  }

  /** All "+1" button keys drawn for one employee (lines 296-302): one per
      registered type, then the "+1 Gesamt" key. */
  function ButtonKeys(name: string, types: seq<string>): (ks: seq<string>)
    ensures |ks| == |types| + 1 && ks[|types|] == TotalKey(name)
    ensures ks[..|types|] == PlusKeys(name, types)
  {
    PlusKeys(name, types) + [TotalKey(name)]
  }

  /** One employee's button keys are distinct exactly when the types are distinct
      and none of them is `__total`: a registered type `__total` draws a button
      whose key is the "+1 Gesamt" key. */
  lemma ButtonKeysDistinct(name: string, types: seq<string>)
    ensures NoDup(ButtonKeys(name, types)) <==> NoDup(types) && "__total" !in types
  {
    var ks := ButtonKeys(name, types);
    var n := |name| + 7;
    forall i, j | 0 <= i < j < |ks| && ks[i] == ks[j]
      ensures (j < |types| && types[i] == types[j]) || (j == |types| && types[i] == "__total")
    {
      assert ks[i][n..] == ks[j][n..];
    }
    if NoDup(types) && "__total" !in types {
      assert NoDup(ks);
    }
    if !NoDup(types) {
      var i, j :| 0 <= i < j < |types| && types[i] == types[j];
      assert ks[i] == ks[j];
    }
    if "__total" in types {
      var i :| 0 <= i < |types| && types[i] == "__total";
      assert ks[i] == ks[|types|];
    }
  }

  /** Keys are not distinct across employees: the type `c` of employee `a_b` and
      the type `b_c` of employee `a` draw buttons with the same key. */
  lemma PlusKeysAcrossEmployees()
    ensures PlusKeys("a_b", ["c"]) == PlusKeys("a", ["b_c"])
  {
    assert PlusKeys("a_b", ["c"])[0] == "plus1_a_b_c";
    assert PlusKeys("a", ["b_c"])[0] == "plus1_a_b_c";
  }

  class Ledger {
    /** `st.session_state.counts_total` */
    var countsTotal: map<string, int>
    /** `st.session_state.counts_by_type` */
    var countsByType: map<string, map<string, int>>
    /** `st.session_state.history` */
    var history: seq<Event>
    /** `st.session_state.known_types` */
    var knownTypes: seq<string>

    /** The counters and the history as a value. */
    function Value(): Book
      reads this
    {
      Book(countsTotal, countsByType, history)
    }

    /** Every operation keeps both counter maps on the same employees and the
        registry free of duplicates. */
    predicate Valid()
      reads this
    {
      SameKeys(Value()) && NoDup(knownTypes)
    }

    /** In a valid session the per-type "+1" buttons of one employee have distinct
        widget keys (lines 296-299); `ButtonKeysDistinct` adds the "+1 Gesamt" key. */
    lemma PlusKeysDistinct(name: string)
      requires Valid()
      ensures NoDup(PlusKeys(name, knownTypes))
    {
    }

    /** In a valid session without a registered type `__total`, all "+1" buttons of
        one employee, the "+1 Gesamt" one included, have distinct widget keys. */
    lemma AllButtonKeysDistinct(name: string)
      requires Valid() && "__total" !in knownTypes
      ensures NoDup(ButtonKeys(name, knownTypes))
    {
      ButtonKeysDistinct(name, knownTypes);
    }

    /** `init_state()` on a fresh session. */
    constructor ()
      ensures Value() == Book(map[], map[], []) && knownTypes == DefaultTypes
      ensures Valid()
    {
      countsTotal := map[];
      countsByType := map[];
      history := [];
      knownTypes := DefaultTypes;
      DefaultTypesDistinct();
    }

    /** `incr(name, n, rdid)`, lines 219-225. */
    method Incr(name: string, n: int, rdid: Option<string>)
      modifies this
      ensures Value() == IncrBooks(old(Value()), name, n, rdid)
      ensures knownTypes == old(knownTypes)
      ensures old(Valid()) ==> Valid()
    {
      ghost var r := IncrBooks(Value(), name, n, rdid);
      var types := if name in countsByType then countsByType[name] else map[];
      if rdid.Some? && rdid.value != [] {
        types := types[rdid.value := Get(types, rdid.value) + n];
      }
      countsTotal := countsTotal[name := Get(countsTotal, name) + n];
      countsByType := countsByType[name := types];
      history := history + [IncrEvent(name, n, rdid)];
      assert countsTotal == r.totals && countsByType == r.byType;
    }

    /** `set_count(name, total, by_type)`, lines 227-230. */
    method SetCount(name: string, total: int, byType: Option<map<string, int>>)
      modifies this
      ensures Value() == SetBooks(old(Value()), name, total, byType)
      ensures knownTypes == old(knownTypes)
      ensures old(Valid()) ==> Valid()
    {
      countsTotal := countsTotal[name := total];
      countsByType := countsByType[name := if byType.Some? then byType.value else map[]];
      history := history + [SetEvent(name, total, countsByType[name])];
    }

    /** `remove_employee(name)`, lines 232-235. */
    method RemoveEmployee(name: string)
      modifies this
      ensures Value() == RemoveBooks(old(Value()), name)
      ensures knownTypes == old(knownTypes)
      ensures old(Valid()) ==> Valid()
    {
      countsTotal := countsTotal - {name};
      countsByType := countsByType - {name};
      history := history + [RemoveEvent(name)];
    }

    /** The "Hinzufügen" button, lines 316-325: the input is stripped first. */
    method AddEmployee(raw: string) returns (outcome: AddOutcome)
      modifies this
      ensures (outcome, Value()) == Books.AddEmployee(old(Value()), Strip(raw))
      ensures knownTypes == old(knownTypes)
      ensures old(Valid()) ==> Valid()
    {
      var nn := Strip(raw);
      if nn == [] {
        outcome := EmptyName;
      } else if nn in countsTotal {
        outcome := AlreadyExists;
      } else {
        countsTotal := countsTotal[nn := 0];
        countsByType := countsByType[nn := map[]];
        outcome := Added;
      }
    }

    /** The sidebar's "Hinzufügen ➕", lines 46-49. */
    method AddType(raw: string)
      modifies this
      ensures knownTypes == AddKnown(old(knownTypes), Strip(raw))
      ensures Value() == old(Value())
      ensures old(Valid()) ==> Valid()
    {
      var t := Strip(raw);
      if t != [] && t !in knownTypes {
        knownTypes := knownTypes + [t];
      }
    }

    /** The sidebar's "Auf Standard zurücksetzen", lines 51-52. */
    method ResetTypes()
      modifies this
      ensures knownTypes == DefaultTypes
      ensures Value() == old(Value())
      ensures old(Valid()) ==> Valid()
    {
      knownTypes := DefaultTypes;
      DefaultTypesDistinct();
    }

    /** Lines 260-265 for the records of one text: each is added to the aggregate
        and its type registered when it is new. */
    method Gather(agg: seq<Tally>, rows: seq<Record>) returns (a: seq<Tally>)
      modifies this
      ensures a == AddRecords(agg, rows)
      ensures knownTypes == KnownAfter(old(knownTypes), rows)
      ensures Value() == old(Value())
      ensures old(Valid()) ==> Valid()
    {
      a := agg;
      var j := 0;
      while j < |rows|
        invariant 0 <= j <= |rows|
        invariant a == AddRecords(agg, rows[..j])
        invariant knownTypes == KnownAfter(old(knownTypes), rows[..j])
        invariant Value() == old(Value())
      {
        var r := rows[j];
        assert rows[..j + 1][..j] == rows[..j];
        a := AddRecord(a, r);
        if r.rdid != [] && r.rdid !in knownTypes {
          knownTypes := knownTypes + [r.rdid];
        }
        j := j + 1;
      }
      assert rows[..|rows|] == rows;
      KnownAfterFacts(old(knownTypes), rows, []);
    }

    /** Lines 247-265: the records of every non-empty text are summed into the
        aggregate, and their new types registered. */
    method Collect(texts: seq<string>) returns (agg: seq<Tally>)
      modifies this
      ensures agg == Aggregate(Parsed(texts))
      ensures knownTypes == KnownAfter(old(knownTypes), Parsed(texts))
      ensures Value() == old(Value())
      ensures old(Valid()) ==> Valid()
    {
      agg := [];
      var i := 0;
      while i < |texts|
        invariant 0 <= i <= |texts|
        invariant agg == Aggregate(Parsed(texts[..i]))
        invariant knownTypes == KnownAfter(old(knownTypes), Parsed(texts[..i]))
        invariant Value() == old(Value())
        invariant old(Valid()) ==> Valid()
      {
        var rows := ReadText(texts[i]);
        FlatMapStep(texts, i, ParseText);
        AddRecordsAppend([], Parsed(texts[..i]), rows);
        KnownAfterAppend(old(knownTypes), Parsed(texts[..i]), rows);
        agg := Gather(agg, rows);
        i := i + 1;
      }
      assert texts[..|texts|] == texts;
    }

    /** Lines 272-276 for one employee: one `incr` per type subtotal, or one for the
        total when there are no types. */
    method BookEntry(entry: Tally)
      modifies this
      ensures Value() == BookTally(old(Value()), entry)
      ensures knownTypes == old(knownTypes)
      ensures old(Valid()) ==> Valid()
    {
      if entry.types != [] {
        var s := 0;
        while s < |entry.types|
          invariant 0 <= s <= |entry.types|
          invariant Value() == BookSubs(old(Value()), entry.name, entry.types[..s])
          invariant knownTypes == old(knownTypes)
          invariant old(Valid()) ==> Valid()
        {
          BookSubsStep(old(Value()), entry.name, entry.types, s);
          Incr(entry.name, entry.types[s].count, Some(entry.types[s].rdid));
          s := s + 1;
        }
        assert entry.types[..|entry.types|] == entry.types;
      } else {
        Incr(entry.name, entry.total, None);
      }
    }

    /** Lines 271-276: the employees in the aggregate's order. */
    method BookAggregate(agg: seq<Tally>)
      modifies this
      ensures Value() == BookAll(old(Value()), agg)
      ensures knownTypes == old(knownTypes)
      ensures old(Valid()) ==> Valid()
    {
      var e := 0;
      while e < |agg|
        invariant 0 <= e <= |agg|
        invariant Value() == BookAll(old(Value()), agg[..e])
        invariant knownTypes == old(knownTypes)
        invariant old(Valid()) ==> Valid()
      {
        assert agg[..e + 1][..e] == agg[..e];
        BookEntry(agg[e]);
        e := e + 1;
      }
      assert agg[..|agg|] == agg;
    }

    /** "Fotos auslesen & buchen", lines 246-276, on the texts the OCR engine
        returned: the aggregate is collected, then booked when it is not empty. */
    method BookTexts(texts: seq<string>) returns (booked: bool)
      modifies this
      ensures booked <==> Parsed(texts) != []
      ensures Value() == BookAll(old(Value()), Aggregate(Parsed(texts)))
      ensures knownTypes == KnownAfter(old(knownTypes), Parsed(texts))
      ensures old(Valid()) ==> Valid()
    {
      var agg := Collect(texts);
      AggregateEmpty(Parsed(texts));
      booked := agg != [];
      BookAggregate(agg);
    }
  }
}
