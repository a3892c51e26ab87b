/** The ledger of app.py as a value: per-employee totals, per-employee and per-type
    subtotals, and the append-only history (`counts_total`, `counts_by_type` and
    `history` in the session state, lines 27-32), with the operations `incr`,
    `set_count` and `remove_employee` (lines 219-235), the add-employee guard (lines
    316-325) and the known-type registry (lines 33-34, 46-52). */
module Books {
  import opened Util
  import opened Text

  /** One entry of `history`. */
  datatype Event =
    | IncrEvent(name: string, count: int, rdid: Option<string>)
    | SetEvent(name: string, total: int, byType: map<string, int>)
    | RemoveEvent(name: string)

  datatype Book = Book(totals: map<string, int>, byType: map<string, map<string, int>>, history: seq<Event>)

  /** `m.get(k, 0)`. */
  function Get(m: map<string, int>, k: string): int {
    if k in m then m[k] else 0
  }

  /** The type counters of an employee, empty when there are none. */
  function TypesOf(b: Book, name: string): map<string, int> {
    if name in b.byType then b.byType[name] else map[]
  }

  function Total(b: Book, name: string): int {
    Get(b.totals, name)
  }

  function Subtotal(b: Book, name: string, t: string): int {
    Get(TypesOf(b, name), t)
  }

  /** `if rdid:` — a type is given and it is not the empty string. */
  predicate HasType(rdid: Option<string>) {
    rdid.Some? && rdid.value != []
  }

  /** Every operation keeps the employees of the two maps the same. */
  predicate SameKeys(b: Book) {
    b.totals.Keys == b.byType.Keys
  }

  /** `incr(name, n, rdid)`. */
  function IncrBooks(b: Book, name: string, n: int, rdid: Option<string>): (r: Book)
    ensures name in r.totals && r.totals[name] == Total(b, name) + n
    ensures r.totals - {name} == b.totals - {name}
    ensures name in r.byType && r.byType - {name} == b.byType - {name}
    ensures HasType(rdid) ==>
      && rdid.value in r.byType[name]
      && r.byType[name][rdid.value] == Subtotal(b, name, rdid.value) + n
      && r.byType[name] - {rdid.value} == TypesOf(b, name) - {rdid.value}
    ensures !HasType(rdid) ==> r.byType[name] == TypesOf(b, name)
    ensures r.history == b.history + [IncrEvent(name, n, rdid)]
    ensures SameKeys(b) ==> SameKeys(r)
  {
    var types := TypesOf(b, name);
    var types' := if HasType(rdid) then types[rdid.value := Get(types, rdid.value) + n] else types;
    Book(b.totals[name := Total(b, name) + n], b.byType[name := types'],
          b.history + [IncrEvent(name, n, rdid)])
  }

  /** `set_count(name, total, by_type)`: `by_type or {}` is copied. */
  function SetBooks(b: Book, name: string, total: int, byType: Option<map<string, int>>): (r: Book)
    ensures name in r.totals && r.totals[name] == total
    ensures r.totals - {name} == b.totals - {name}
    ensures name in r.byType && r.byType[name] == (if byType.Some? then byType.value else map[])
    ensures r.byType - {name} == b.byType - {name}
    ensures r.history == b.history + [SetEvent(name, total, r.byType[name])]
    ensures SameKeys(b) ==> SameKeys(r)
  {
    var types := if byType.Some? then byType.value else map[];
    Book(b.totals[name := total], b.byType[name := types], b.history + [SetEvent(name, total, types)])
  }

  /** `remove_employee(name)`: `pop(name, None)` on both maps. */
  function RemoveBooks(b: Book, name: string): (r: Book)
    ensures name !in r.totals && name !in r.byType
    ensures r.totals - {name} == b.totals - {name} && r.byType - {name} == b.byType - {name}
    ensures name !in b.totals ==> r.totals == b.totals
    ensures name !in b.byType ==> r.byType == b.byType
    ensures r.history == b.history + [RemoveEvent(name)]
    ensures SameKeys(b) ==> SameKeys(r)
  {
    Book(b.totals - {name}, b.byType - {name}, b.history + [RemoveEvent(name)])
  }

  datatype AddOutcome = EmptyName | AlreadyExists | Added

  /** The "Hinzufügen" button of lines 316-325, given the stripped input: the name must be non-empty and
      not yet have a total; a new employee starts at 0 with no types, and nothing is
      written to the history. */
  function AddEmployee(b: Book, name: string): (r: (AddOutcome, Book))
    ensures r.0 == EmptyName <==> name == []
    ensures r.0 == AlreadyExists <==> name != [] && name in b.totals
    ensures r.0 != Added ==> r.1 == b
    ensures r.0 == Added ==> name !in b.totals && r.1.history == b.history
    ensures r.0 == Added ==> name in r.1.totals && r.1.totals[name] == 0
    ensures r.0 == Added ==> r.1.totals - {name} == b.totals
    ensures r.0 == Added ==> name in r.1.byType && r.1.byType[name] == map[]
    ensures r.0 == Added ==> r.1.byType - {name} == b.byType - {name}
    ensures SameKeys(b) ==> SameKeys(r.1)
  {
    if name == [] then (EmptyName, b)
    else if name in b.totals then (AlreadyExists, b)
    else (Added, Book(b.totals[name := 0], b.byType[name := map[]], b.history))
  }

  // ---------------------------------------------------------------- known types

  /** The registry's initial and reset value. */
  const DefaultTypes: seq<string> := ["Regulierer", "Sachverständiger"]

  predicate NoDup(s: seq<string>) {
    forall i, j :: 0 <= i < j < |s| ==> s[i] != s[j]
  }

  /** Register a type label: appended when it is non-empty and not yet known (the
      sidebar add, lines 47-49, applied to the stripped input, and the batch booking,
      lines 264-265). */
  function AddKnown(known: seq<string>, t: string): (r: seq<string>)
    ensures known <= r && |r| <= |known| + 1
    ensures forall u :: u in r <==> u in known || (u == t && t != [])
    ensures NoDup(known) ==> NoDup(r)
  {
    if t != [] && t !in known then known + [t] else known
  }

  lemma DefaultTypesDistinct()
    ensures NoDup(DefaultTypes) && |DefaultTypes| == 2
  {
    assert DefaultTypes[0][0] != DefaultTypes[1][0];
  }

  // ---------------------------------------------------------------- properties

  /** The effect of one `incr` on every counter: only the employee's total and, when a
      type is given, that type's subtotal move, both by `n`. */
  lemma IncrEffect(b: Book, name: string, n: int, rdid: Option<string>, k: string, t: string)
    ensures Total(IncrBooks(b, name, n, rdid), k) == Total(b, k) + (if k == name then n else 0)
    ensures Subtotal(IncrBooks(b, name, n, rdid), k, t)
         == Subtotal(b, k, t) + (if k == name && rdid == Some(t) && t != [] then n else 0)
  {
    var r := IncrBooks(b, name, n, rdid);
    if k != name {
      assert (k in r.totals <==> k in b.totals) && (k in b.totals ==> r.totals[k] == b.totals[k]);
      assert TypesOf(r, k) == TypesOf(b, k);
    } else if HasType(rdid) && rdid.value != t {
      var old_, new_ := TypesOf(b, name), TypesOf(r, name);
      assert new_ == old_[rdid.value := Get(old_, rdid.value) + n];
      assert Get(new_, t) == Get(old_, t);
    }
  }

  /** Two bookings for the same employee and type add up to one. */
  lemma IncrAdds(b: Book, name: string, m: int, n: int, rdid: Option<string>, k: string, t: string)
    ensures var once := IncrBooks(b, name, m + n, rdid);
      var twice := IncrBooks(IncrBooks(b, name, m, rdid), name, n, rdid);
      Total(twice, k) == Total(once, k) && Subtotal(twice, k, t) == Subtotal(once, k, t)
  {
    IncrEffect(b, name, m, rdid, k, t);
    IncrEffect(IncrBooks(b, name, m, rdid), name, n, rdid, k, t);
    IncrEffect(b, name, m + n, rdid, k, t);
  }

  /** Removing an employee forgets every booking made for them. */
  lemma RemoveForgetsIncr(b: Book, name: string, n: int, rdid: Option<string>)
    ensures var r := RemoveBooks(IncrBooks(b, name, n, rdid), name);
      r.totals == RemoveBooks(b, name).totals && r.byType == RemoveBooks(b, name).byType
  {
  }

  /** Setting a count discards whatever was booked for that employee before. */
  lemma SetOverridesIncr(b: Book, name: string, n: int, rdid: Option<string>, total: int, byType: Option<map<string, int>>)
    ensures var r := SetBooks(IncrBooks(b, name, n, rdid), name, total, byType);
      r.totals == SetBooks(b, name, total, byType).totals && r.byType == SetBooks(b, name, total, byType).byType
  {
  }
}
