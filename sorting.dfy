/** Stable sorting and filtering of sequences, the way the frontend uses
    `Array.prototype.sort` (which ECMAScript requires to be stable) and
    `Array.prototype.filter`.

    A comparator is given as `le`: `le(a, b)` holds when the comparator does
    not order `b` before `a`, so a stable sort may leave `a` in front of `b`. */
module Sorting {

  /** `le` is total and transitive: the comparator is consistent. */
  ghost predicate TotalPreorder<T(!new)>(le: (T, T) -> bool) {
    && (forall a, b :: le(a, b) || le(b, a))
    && (forall a, b, c :: le(a, b) && le(b, c) ==> le(a, c))
  }

  ghost predicate SortedBy<T(!new)>(s: seq<T>, le: (T, T) -> bool) {
    forall i, j :: 0 <= i < j < |s| ==> le(s[i], s[j])
  }

  /** The elements of `s` that satisfy `p`, in their order in `s`: `s.filter(p)`. */
  function Keep<T(!new)>(s: seq<T>, p: T -> bool): (r: seq<T>)
    ensures |r| <= |s|
    decreases |s|
  {
    if |s| == 0 then []
    else
      var r' := Keep(s[..|s| - 1], p);
      if p(s[|s| - 1]) then r' + [s[|s| - 1]] else r'
  }

  /** Places `x` behind the last element of `t` that may precede it; every
      element it passes is strictly after `x` in the preorder. */
  function Insert<T(!new)>(t: seq<T>, x: T, le: (T, T) -> bool): (r: seq<T>)
    ensures |r| == |t| + 1
    decreases |t|
  {
    if |t| == 0 then [x]
    else if le(t[|t| - 1], x) then t + [x]
    else Insert(t[..|t| - 1], x, le) + [t[|t| - 1]]
  }

  /** The stable sort: each element in turn is inserted into the sorted
      prefix before it, as an insertion sort does. */
  function StableSort<T(!new)>(s: seq<T>, le: (T, T) -> bool): (r: seq<T>)
    ensures |r| == |s|
    decreases |s|
  {
    if |s| == 0 then []
    else Insert(StableSort(s[..|s| - 1], le), s[|s| - 1], le)
  }

  /** The elements equivalent to `v` under `le`. */
  function TiedWith<T(!new)>(v: T, le: (T, T) -> bool): T -> bool {
    y => le(y, v) && le(v, y)
  }

  // ---------------------------------------------------------------------
  // Properties of Insert and StableSort

  lemma {:induction false} InsertPermutes<T(!new)>(t: seq<T>, x: T, le: (T, T) -> bool)
    ensures multiset(Insert(t, x, le)) == multiset(t) + multiset{x}
    decreases |t|
  {
    if |t| > 0 && !le(t[|t| - 1], x) {
      var t' := t[..|t| - 1];
      assert t == t' + [t[|t| - 1]];
      InsertPermutes(t', x, le);
    }
  }

  /** The stable sort is a permutation of its input. */
  lemma {:induction false} StableSortPermutes<T(!new)>(s: seq<T>, le: (T, T) -> bool)
    ensures multiset(StableSort(s, le)) == multiset(s)
    decreases |s|
  {
    if |s| > 0 {
      var s' := s[..|s| - 1];
      assert s == s' + [s[|s| - 1]];
      StableSortPermutes(s', le);
      InsertPermutes(StableSort(s', le), s[|s| - 1], le);
    }
  }

  /** Where an insertion sort's inner loop stops shifting is where Insert
      places the element. */
  lemma {:induction false} InsertAt<T(!new)>(t: seq<T>, x: T, le: (T, T) -> bool, j: nat)
    requires j <= |t|
    requires forall k :: j <= k < |t| ==> !le(t[k], x)
    requires j == 0 || le(t[j - 1], x)
    ensures Insert(t, x, le) == t[..j] + [x] + t[j..]
    decreases |t|
  {
    if j == |t| {
      assert t[..j] == t && t[j..] == [];
    } else {
      var t' := t[..|t| - 1];
      var last := t[|t| - 1];
      assert !le(last, x);
      assert Insert(t, x, le) == Insert(t', x, le) + [last];
      assert forall k :: j <= k < |t'| ==> t'[k] == t[k];
      assert j == 0 || t'[j - 1] == t[j - 1];
      InsertAt(t', x, le, j);
      assert t'[..j] == t[..j];
      assert t'[j..] + [last] == t[j..];
    }
  }

  lemma {:induction false} InsertKeepsSorted<T(!new)>(t: seq<T>, x: T, le: (T, T) -> bool)
    requires TotalPreorder(le)
    requires SortedBy(t, le)
    ensures SortedBy(Insert(t, x, le), le)
    decreases |t|
  {
    if |t| == 0 {
    } else if le(t[|t| - 1], x) {
      var r := t + [x];
      forall i, j | 0 <= i < j < |r| ensures le(r[i], r[j]) {
        if j == |t| && i < |t| - 1 {
          assert le(t[i], t[|t| - 1]);
        }
      }
    } else {
      var t' := t[..|t| - 1];
      var last := t[|t| - 1];
      InsertKeepsSorted(t', x, le);
      var u := Insert(t', x, le);
      assert le(x, last);
      forall y | y in u ensures le(y, last) {
        InsertPermutes(t', x, le);
        assert y in multiset(u);
        if y != x {
          assert y in multiset(t');
          var i :| 0 <= i < |t'| && t'[i] == y;
          assert le(t[i], t[|t| - 1]);
        }
      }
      var r := u + [last];
      forall i, j | 0 <= i < j < |r| ensures le(r[i], r[j]) {
        if j == |u| {
          assert r[i] in u;
        } else {
          assert le(u[i], u[j]);
        }
      }
    }
  }

  /** The stable sort orders its result by `le`. */
  lemma {:induction false} StableSortIsSorted<T(!new)>(s: seq<T>, le: (T, T) -> bool)
    requires TotalPreorder(le)
    ensures SortedBy(StableSort(s, le), le)
    decreases |s|
  {
    if |s| > 0 {
      StableSortIsSorted(s[..|s| - 1], le);
      InsertKeepsSorted(StableSort(s[..|s| - 1], le), s[|s| - 1], le);
    }
  }

  /** Filtering after an insertion is inserting into the filtered list. */
  lemma {:induction false} KeepInsert<T(!new)>(t: seq<T>, x: T, le: (T, T) -> bool, p: T -> bool)
    requires TotalPreorder(le)
    requires SortedBy(t, le)
    ensures Keep(Insert(t, x, le), p)
            == if p(x) then Insert(Keep(t, p), x, le) else Keep(t, p)
    decreases |t|
  {
    var px := if p(x) then [x] else [];
    if |t| == 0 {
    } else {
      var t' := t[..|t| - 1];
      var last := t[|t| - 1];
      var pl := if p(last) then [last] else [];
      assert t == t' + [last];
      assert Keep(t, p) == Keep(t', p) + pl;
      if le(last, x) {
        var r := t + [x];
        assert r[..|r| - 1] == t;
        assert Keep(r, p) == Keep(t, p) + px;
        if p(x) {
          var u := Keep(t, p);
          if |u| > 0 {
            var y := u[|u| - 1];
            KeepMembers(t, p);
            assert y in t;
            var i :| 0 <= i < |t| && t[i] == y;
            if i < |t| - 1 {
              assert le(t[i], last);
            }
            assert le(y, x);
          }
        }
      } else {
        var u := Insert(t', x, le);
        KeepInsert(t', x, le, p);
        var r := u + [last];
        assert r[..|r| - 1] == u;
        assert Keep(r, p) == Keep(u, p) + pl;
        if p(x) && p(last) {
          var w := Keep(t', p) + [last];
          assert w[..|w| - 1] == Keep(t', p);
        }
      }
    }
  }

  /** Sorting then filtering gives the same list as filtering then sorting. */
  lemma {:induction false} KeepStableSort<T(!new)>(s: seq<T>, le: (T, T) -> bool, p: T -> bool)
    requires TotalPreorder(le)
    ensures Keep(StableSort(s, le), p) == StableSort(Keep(s, p), le)
    decreases |s|
  {
    if |s| > 0 {
      var s' := s[..|s| - 1];
      var x := s[|s| - 1];
      KeepStableSort(s', le, p);
      StableSortIsSorted(s', le);
      KeepInsert(StableSort(s', le), x, le, p);
      var k := Keep(s, p);
      if p(x) {
        assert k[..|k| - 1] == Keep(s', p);
      }
    }
  }

  /** A list whose elements are all mutually tied is left as it is. */
  lemma {:induction false} StableSortOfTies<T(!new)>(s: seq<T>, le: (T, T) -> bool)
    requires forall i, j :: 0 <= i < |s| && 0 <= j < |s| ==> le(s[i], s[j])
    ensures StableSort(s, le) == s
    decreases |s|
  {
    if |s| > 0 {
      var s' := s[..|s| - 1];
      StableSortOfTies(s', le);
      assert s' + [s[|s| - 1]] == s;
      if |s'| > 0 {
        assert le(s'[|s'| - 1], s[|s| - 1]);
      }
    }
  }

  /** Stability: the elements tied with any `v` come out in their input order. */
  lemma StableSortKeepsTies<T(!new)>(s: seq<T>, le: (T, T) -> bool, v: T)
    requires TotalPreorder(le)
    ensures Keep(StableSort(s, le), TiedWith(v, le)) == Keep(s, TiedWith(v, le))
  {
    var p := TiedWith(v, le);
    KeepStableSort(s, le, p);
    var k := Keep(s, p);
    KeepMembers(s, p);
    forall i, j | 0 <= i < |k| && 0 <= j < |k| ensures le(k[i], k[j]) {
      assert k[i] in k && k[j] in k;
      assert le(k[i], v) && le(v, k[j]);
    }
    StableSortOfTies(k, le);
  }

  // ---------------------------------------------------------------------
  // Properties of Keep

  /** The filter keeps exactly the elements that pass the predicate. */
  lemma {:induction false} KeepMembers<T(!new)>(s: seq<T>, p: T -> bool)
    ensures forall x :: x in Keep(s, p) <==> x in s && p(x)
    decreases |s|
  {
    if |s| > 0 {
      var s' := s[..|s| - 1];
      assert s == s' + [s[|s| - 1]];
      KeepMembers(s', p);
    }
  }

  /** ... and keeps each of them as many times as it occurs. */
  lemma {:induction false} KeepCounts<T(!new)>(s: seq<T>, p: T -> bool)
    ensures forall x :: multiset(Keep(s, p))[x] == if p(x) then multiset(s)[x] else 0
    decreases |s|
  {
    if |s| > 0 {
      var s' := s[..|s| - 1];
      assert s == s' + [s[|s| - 1]];
      KeepCounts(s', p);
    }
  }

  /** Two filters in a row are one filter by their conjunction. */
  lemma {:induction false} KeepKeep<T(!new)>(s: seq<T>, p: T -> bool, q: T -> bool, pq: T -> bool)
    requires forall x :: pq(x) == (p(x) && q(x))
    ensures Keep(Keep(s, p), q) == Keep(s, pq)
    decreases |s|
  {
    if |s| > 0 {
      var s' := s[..|s| - 1];
      KeepKeep(s', p, q, pq);
      var k := Keep(s, p);
      if p(s[|s| - 1]) {
        assert k[..|k| - 1] == Keep(s', p);
      }
    }
  }

  /** A filter that keeps everything in `s` changes nothing. */
  lemma {:induction false} KeepAll<T(!new)>(s: seq<T>, p: T -> bool)
    requires forall i :: 0 <= i < |s| ==> p(s[i])
    ensures Keep(s, p) == s
    decreases |s|
  {
    if |s| > 0 {
      KeepAll(s[..|s| - 1], p);
      assert s[..|s| - 1] + [s[|s| - 1]] == s;
    }
  }

  /** A subsequence of a sorted list is sorted. */
  lemma {:induction false} KeepSorted<T(!new)>(s: seq<T>, le: (T, T) -> bool, p: T -> bool)
    requires SortedBy(s, le)
    ensures SortedBy(Keep(s, p), le)
    decreases |s|
  {
    if |s| > 0 {
      var s' := s[..|s| - 1];
      var x := s[|s| - 1];
      assert SortedBy(s', le) by {
        forall i, j | 0 <= i < j < |s'| ensures le(s'[i], s'[j]) {
          assert s'[i] == s[i] && s'[j] == s[j];
        }
      }
      KeepSorted(s', le, p);
      if p(x) {
        var u := Keep(s', p);
        var r := u + [x];
        forall i, j | 0 <= i < j < |r| ensures le(r[i], r[j]) {
          if j == |u| {
            KeepMembers(s', p);
            assert r[i] in s';
            var k :| 0 <= k < |s'| && s'[k] == r[i];
            assert le(s[k], s[|s| - 1]);
          } else {
            assert le(u[i], u[j]);
          }
        }
      }
    }
  }

  // ---------------------------------------------------------------------
  // Sequences without repeated elements

  ghost predicate Distinct<T(!new)>(s: seq<T>) {
    forall i, j :: 0 <= i < j < |s| ==> s[i] != s[j]
  }

  lemma {:induction false} DistinctOccursOnce<T(!new)>(s: seq<T>)
    requires Distinct(s)
    ensures forall x :: multiset(s)[x] <= 1
    decreases |s|
  {
    if |s| > 0 {
      var s' := s[..|s| - 1];
      assert s == s' + [s[|s| - 1]];
      assert Distinct(s') by {
        forall i, j | 0 <= i < j < |s'| ensures s'[i] != s'[j] {
          assert s'[i] == s[i] && s'[j] == s[j];
        }
      }
      DistinctOccursOnce(s');
      assert s[|s| - 1] !in s';
    }
  }

  /** A permutation of a list without repeats has no repeats. */
  lemma DistinctPermutation<T(!new)>(a: seq<T>, b: seq<T>)
    requires Distinct(a)
    requires multiset(a) == multiset(b)
    ensures Distinct(b)
  {
    DistinctOccursOnce(a);
    forall i, j | 0 <= i < j < |b| ensures b[i] != b[j] {
      RepeatOccursTwice(b, i, j);
    }
  }

  lemma RepeatOccursTwice<T(!new)>(b: seq<T>, i: nat, j: nat)
    requires i < j < |b|
    ensures b[i] == b[j] ==> multiset(b)[b[i]] >= 2
  {
    assert b == b[..i] + [b[i]] + b[i + 1..j] + [b[j]] + b[j + 1..];
  }

  // ---------------------------------------------------------------------
  // The in-place sort

  /** One pass of the insertion sort: shifts the elements of the sorted
      prefix `a[..i]` that must follow `a[i]` one place right and puts
      `a[i]` into the gap. */
  method InsertInPlace<T(!new)>(a: array<T>, i: nat, le: (T, T) -> bool)
    requires i < a.Length
    modifies a
    ensures a[..i + 1] == Insert(old(a[..i]), old(a[i]), le)
    ensures a[i + 1..] == old(a[i + 1..])
  {
    ghost var t := a[..i];
    var x := a[i];
    var j := i;
    while j > 0 && !le(a[j - 1], x)
      invariant 0 <= j <= i
      invariant a[..j] == t[..j]
      invariant a[j + 1..i + 1] == t[j..]
      invariant forall k :: j <= k < i ==> !le(t[k], x)
      invariant a[i + 1..] == old(a[i + 1..])
    {
      a[j] := a[j - 1];
      j := j - 1;
    }
    a[j] := x;
    InsertAt(t, x, le, j);
    assert a[..i + 1] == a[..j] + [x] + a[j + 1..i + 1];
  }

  /** `a.sort(cmp)`: an in-place stable insertion sort. */
  method SortInPlace<T(!new)>(a: array<T>, le: (T, T) -> bool)
    modifies a
    ensures a[..] == StableSort(old(a[..]), le)
  {
    ghost var s := a[..];
    var i := 0;
    while i < a.Length
      invariant 0 <= i <= a.Length
      invariant a[..i] == StableSort(s[..i], le)
      invariant a[i..] == s[i..]
    {
      InsertInPlace(a, i, le);
      assert s[..i + 1][..i] == s[..i];
      i := i + 1;
    }
    assert a[..] == a[..a.Length] && s == s[..a.Length];
  }
}
