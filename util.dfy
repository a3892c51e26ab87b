/** Small value types and sequence helpers shared by the parsers and the ledger. */
module Util {

  datatype Option<T> = None | Some(value: T)

  /** The elements of `s` that satisfy `keep`, in their original order — a list
      comprehension `[x for x in s if keep(x)]`. Defined from the right end, so that a
      loop that extends its result one element at a time matches it step by step. */
  function Filter<T>(s: seq<T>, keep: T -> bool): (r: seq<T>)
    ensures |r| <= |s|
    ensures forall k :: 0 <= k < |r| ==> keep(r[k]) && r[k] in s
  {
    if s == [] then []
    else Filter(s[..|s| - 1], keep) + (if keep(s[|s| - 1]) then [s[|s| - 1]] else [])
  }

  lemma {:induction false} FilterKeepsAll<T>(s: seq<T>, keep: T -> bool)
    requires forall k :: 0 <= k < |s| ==> keep(s[k])
    ensures Filter(s, keep) == s
  {
    if s != [] {
      FilterKeepsAll(s[..|s| - 1], keep);
      assert s[..|s| - 1] + [s[|s| - 1]] == s;
    }
  }

  lemma {:induction false} FilterAppend<T>(s: seq<T>, x: T, keep: T -> bool)
    ensures Filter(s + [x], keep) == Filter(s, keep) + (if keep(x) then [x] else [])
  {
    assert (s + [x])[..|s + [x]| - 1] == s;
  }

  lemma {:induction false} FilterConcat<T>(a: seq<T>, b: seq<T>, keep: T -> bool)
    ensures Filter(a + b, keep) == Filter(a, keep) + Filter(b, keep)
  {
    if b == [] {
      assert a + b == a;
    } else {
      var init, last := b[..|b| - 1], b[|b| - 1];
      FilterConcat(a, init, keep);
      assert a + b == (a + init) + [last];
      FilterAppend(a + init, last, keep);
    }
  }

  /** A rejected element between two runs is dropped from their filtering. */
  lemma FilterAround<T>(a: seq<T>, x: T, b: seq<T>, keep: T -> bool)
    requires !keep(x)
    ensures Filter(a + [x] + b, keep) == Filter(a, keep) + Filter(b, keep)
  {
    FilterAppend(a, x, keep);
    FilterConcat(a + [x], b, keep);
  }

  lemma FilterStep<T>(s: seq<T>, i: nat, keep: T -> bool)
    requires i < |s|
    ensures Filter(s[..i + 1], keep) == Filter(s[..i], keep) + (if keep(s[i]) then [s[i]] else [])
  {
    assert s[..i + 1][..i] == s[..i];
  }

  lemma {:induction false} FilterKeepsNone<T>(s: seq<T>, keep: T -> bool)
    requires forall k :: 0 <= k < |s| ==> !keep(s[k])
    ensures Filter(s, keep) == []
  {
    if s != [] {
      FilterKeepsNone(s[..|s| - 1], keep);
    }
  }

  /** Filtering a run of rejected elements followed by a run of kept ones leaves
      exactly the second run. */
  lemma FilterDropsPrefix<T>(a: seq<T>, b: seq<T>, keep: T -> bool)
    requires forall k :: 0 <= k < |a| ==> !keep(a[k])
    requires forall k :: 0 <= k < |b| ==> keep(b[k])
    ensures Filter(a + b, keep) == b
  {
    FilterConcat(a, b, keep);
    FilterKeepsNone(a, keep);
    FilterKeepsAll(b, keep);
  }

  /** `[f(x) for x in s]`. */
  function Map<A, B>(s: seq<A>, f: A -> B): (r: seq<B>)
    ensures |r| == |s| && forall i :: 0 <= i < |s| ==> r[i] == f(s[i])
  {
    seq(|s|, i requires 0 <= i < |s| => f(s[i]))
  }

  lemma MapConcat<A, B>(a: seq<A>, b: seq<A>, f: A -> B)
    ensures Map(a + b, f) == Map(a, f) + Map(b, f)
  {
    assert forall i :: 0 <= i < |a + b| ==> Map(a + b, f)[i] == (Map(a, f) + Map(b, f))[i];
  }

  /** `f` applied to every element of `s`, the results concatenated in order. */
  function FlatMap<A, B>(s: seq<A>, f: A -> seq<B>): seq<B> {
    if s == [] then [] else FlatMap(s[..|s| - 1], f) + f(s[|s| - 1])
  }

  lemma FlatMapSnoc<A, B>(s: seq<A>, x: A, f: A -> seq<B>)
    ensures FlatMap(s + [x], f) == FlatMap(s, f) + f(x)
  {
    assert (s + [x])[..|s|] == s;
  }

  lemma FlatMapStep<A, B>(s: seq<A>, i: nat, f: A -> seq<B>)
    requires i < |s|
    ensures FlatMap(s[..i + 1], f) == FlatMap(s[..i], f) + f(s[i])
  {
    assert s[..i + 1][..i] == s[..i];
  }

  lemma {:induction false} FlatMapAppend<A, B>(a: seq<A>, b: seq<A>, f: A -> seq<B>)
    ensures FlatMap(a + b, f) == FlatMap(a, f) + FlatMap(b, f)
  {
    if b == [] {
      assert a + b == a;
    } else {
      var init, last := b[..|b| - 1], b[|b| - 1];
      assert a + b == (a + init) + [last];
      assert b == init + [last];
      calc {
        FlatMap(a + b, f);
        { FlatMapSnoc(a + init, last, f); }
        FlatMap(a + init, f) + f(last);
        { FlatMapAppend(a, init, f); }
        (FlatMap(a, f) + FlatMap(init, f)) + f(last);
        FlatMap(a, f) + (FlatMap(init, f) + f(last));
        { FlatMapSnoc(init, last, f); }
        FlatMap(a, f) + FlatMap(b, f);
      }
    }
  }

  /** A property of every piece is a property of every element of the concatenation. */
  lemma {:induction false} FlatMapAll<A, B>(s: seq<A>, f: A -> seq<B>, p: B -> bool)
    requires forall i, k :: 0 <= i < |s| && 0 <= k < |f(s[i])| ==> p(f(s[i])[k])
    ensures forall k :: 0 <= k < |FlatMap(s, f)| ==> p(FlatMap(s, f)[k])
  {
    if s != [] {
      var n := |s| - 1;
      FlatMapAll(s[..n], f, p);
      var head, last := FlatMap(s[..n], f), f(s[n]);
      assert FlatMap(s, f) == head + last;
      forall k | 0 <= k < |head + last|
        ensures p((head + last)[k])
      {
        if k >= |head| {
          assert (head + last)[k] == f(s[n])[k - |head|];
        }
      }
    }
  }

  /** The sum of `f` over the elements of `s`. */
  function SumOf<T>(s: seq<T>, f: T -> int): int {
    if s == [] then 0 else SumOf(s[..|s| - 1], f) + f(s[|s| - 1])
  }

  lemma SumOfSnoc<T>(s: seq<T>, x: T, f: T -> int)
    ensures SumOf(s + [x], f) == SumOf(s, f) + f(x)
  {
    assert (s + [x])[..|s|] == s;
  }

  lemma {:induction false} SumOfAppend<T>(a: seq<T>, b: seq<T>, f: T -> int)
    ensures SumOf(a + b, f) == SumOf(a, f) + SumOf(b, f)
  {
    if b != [] {
      var init, last := b[..|b| - 1], b[|b| - 1];
      assert a + b == (a + init) + [last];
      assert b == init + [last];
      SumOfAppend(a, init, f);
      SumOfSnoc(a + init, last, f);
      SumOfSnoc(init, last, f);
    } else {
      assert a + b == a;
    }
  }

  /** Replacing one element changes the sum by the difference of the two values. */
  lemma {:induction false} SumOfUpdate<T>(s: seq<T>, i: nat, x: T, f: T -> int)
    requires i < |s|
    ensures SumOf(s[i := x], f) == SumOf(s, f) - f(s[i]) + f(x)
  {
    var t := s[i := x];
    var n := |s| - 1;
    if i == n {
      assert t[..n] == s[..n];
    } else {
      SumOfUpdate(s[..n], i, x, f);
      assert t[..n] == s[..n][i := x];
      assert t[n] == s[n];
    }
  }

  lemma SumOfRemove<T>(s: seq<T>, j: nat, f: T -> int)
    requires j < |s|
    ensures SumOf(s, f) == SumOf(s[..j] + s[j + 1..], f) + f(s[j])
  {
    var a, x, b := s[..j], s[j], s[j + 1..];
    assert s == a + ([x] + b);
    assert SumOf([x], f) == f(x) by {
      SumOfSnoc([], x, f);
      assert [] + [x] == [x];
    }
    calc {
      SumOf(s, f);
      == { SumOfAppend(a, [x] + b, f); }
      SumOf(a, f) + SumOf([x] + b, f);
      == { SumOfAppend([x], b, f); }
      SumOf(a, f) + f(x) + SumOf(b, f);
      == { SumOfAppend(a, b, f); }
      SumOf(a + b, f) + f(x);
    }
  }

  /** A sum does not depend on the order of the elements. */
  lemma {:induction false} SumOfPermutation<T>(a: seq<T>, b: seq<T>, f: T -> int)
    requires multiset(a) == multiset(b)
    ensures SumOf(a, f) == SumOf(b, f)
  {
    if a == [] {
      assert |b| == |multiset(b)| == 0;
    } else {
      var init, last := a[..|a| - 1], a[|a| - 1];
      MultisetOfSnoc(init, last);
      assert a == init + [last];
      assert last in multiset(b);
      var j :| 0 <= j < |b| && b[j] == last;
      MultisetRemove(b, j);
      SumOfPermutation(init, b[..j] + b[j + 1..], f);
      SumOfRemove(b, j, f);
    }
  }

  lemma MultisetOfSnoc<T>(s: seq<T>, x: T)
    ensures multiset(s) == multiset(s + [x]) - multiset{x}
  {
    assert multiset(s + [x]) == multiset(s) + multiset{x};
  }

  lemma MultisetRemove<T>(s: seq<T>, j: nat)
    requires j < |s|
    ensures multiset(s[..j] + s[j + 1..]) == multiset(s) - multiset{s[j]}
  {
    assert s == s[..j] + [s[j]] + s[j + 1..];
    assert multiset(s) == multiset(s[..j]) + multiset{s[j]} + multiset(s[j + 1..]);
  }

  lemma {:induction false} SumOfPointwise<T>(s: seq<T>, f: T -> int, g: T -> int)
    requires forall k :: 0 <= k < |s| ==> f(s[k]) == g(s[k])
    ensures SumOf(s, f) == SumOf(s, g)
  {
    if s != [] {
      SumOfPointwise(s[..|s| - 1], f, g);
    }
  }

  /** Sums add up pointwise. */
  lemma {:induction false} SumOfSplit<T>(s: seq<T>, f: T -> int, g: T -> int, h: T -> int)
    requires forall k :: 0 <= k < |s| ==> f(s[k]) == g(s[k]) + h(s[k])
    ensures SumOf(s, f) == SumOf(s, g) + SumOf(s, h)
  {
    if s != [] {
      SumOfSplit(s[..|s| - 1], f, g, h);
    }
  }

  lemma {:induction false} SumOfZero<T>(s: seq<T>, f: T -> int)
    requires forall k :: 0 <= k < |s| ==> f(s[k]) == 0
    ensures SumOf(s, f) == 0
  {
    if s != [] {
      SumOfZero(s[..|s| - 1], f);
    }
  }
}
