/**
 * `sort.SliceStable` with a caller-supplied "less". A stable sort by a strict
 * weak order has exactly one possible result, so it is specified here by a
 * stable insertion sort (`Sort`), and `SortInPlace` sorts an array in place
 * to that result.
 */
module Sorting {

  /** What `sort.SliceStable` needs of `less`: irreflexive, transitive, and
      with "neither is less" transitive as well. */
  ghost predicate StrictWeakOrder<T(!new)>(less: (T, T) -> bool) {
    && (forall x :: !less(x, x))
    && (forall x, y, z :: less(x, y) && less(y, z) ==> less(x, z))
    && (forall x, y, z :: less(x, z) && !less(x, y) ==> less(y, z))
  }

  /** No later element is less than an earlier one. */
  ghost predicate Sorted<T>(s: seq<T>, less: (T, T) -> bool) {
    forall i, j :: 0 <= i < j < |s| ==> !less(s[j], s[i])
  }

  /** Neither element is less than the other: a stable sort keeps such pairs in order. */
  predicate Equiv<T>(less: (T, T) -> bool, x: T, y: T) {
    !less(x, y) && !less(y, x)
  }

  function Filter<T>(s: seq<T>, p: T -> bool): (r: seq<T>)
    ensures |r| <= |s|
  {
    if s == [] then [] else (if p(s[0]) then [s[0]] else []) + Filter(s[1..], p)
  }

  lemma {:induction false} FilterAppend<T>(s: seq<T>, t: seq<T>, p: T -> bool)
    ensures Filter(s + t, p) == Filter(s, p) + Filter(t, p)
  {
    if s != [] {
      var h := if p(s[0]) then [s[0]] else [];
      assert (s + t)[0] == s[0];
      assert (s + t)[1..] == s[1..] + t;
      FilterAppend(s[1..], t, p);
      assert Filter(s + t, p) == h + Filter(s[1..] + t, p);
      assert Filter(s, p) == h + Filter(s[1..], p);
    } else {
      assert s + t == t;
    }
  }

  /** Insert x after every element it is not less than, scanning from the end. */
  function Insert<T>(t: seq<T>, x: T, less: (T, T) -> bool): (r: seq<T>)
    ensures |r| == |t| + 1
  {
    if t == [] || !less(x, t[|t| - 1]) then t + [x]
    else Insert(t[..|t| - 1], x, less) + [t[|t| - 1]]
  }

  /** Stable insertion sort: the elements are inserted left to right. */
  function Sort<T>(s: seq<T>, less: (T, T) -> bool): (r: seq<T>)
    ensures |r| == |s|
  {
    if s == [] then [] else Insert(Sort(s[..|s| - 1], less), s[|s| - 1], less)
  }

  lemma {:induction false} InsertPermutes<T>(t: seq<T>, x: T, less: (T, T) -> bool)
    ensures multiset(Insert(t, x, less)) == multiset(t) + multiset{x}
  {
    if t != [] && less(x, t[|t| - 1]) {
      InsertPermutes(t[..|t| - 1], x, less);
      assert t == t[..|t| - 1] + [t[|t| - 1]];
    }
  }

  /** The result is a rearrangement of the input. */
  lemma {:induction false} SortPermutes<T>(s: seq<T>, less: (T, T) -> bool)
    ensures multiset(Sort(s, less)) == multiset(s)
  {
    if s != [] {
      SortPermutes(s[..|s| - 1], less);
      InsertPermutes(Sort(s[..|s| - 1], less), s[|s| - 1], less);
      assert s == s[..|s| - 1] + [s[|s| - 1]];
    }
  }

  lemma {:induction false} InsertSorted<T(!new)>(t: seq<T>, x: T, less: (T, T) -> bool)
    requires StrictWeakOrder(less)
    requires Sorted(t, less)
    ensures Sorted(Insert(t, x, less), less)
  {
    var r := Insert(t, x, less);
    if t == [] || !less(x, t[|t| - 1]) {
      forall i, j | 0 <= i < j < |r| ensures !less(r[j], r[i]) {
        if j == |t| && i < |t| - 1 {
          assert !less(t[|t| - 1], t[i]);
        }
      }
    } else {
      var init, last := t[..|t| - 1], t[|t| - 1];
      InsertSorted(init, x, less);
      InsertPermutes(init, x, less);
      var u := Insert(init, x, less);
      forall i, j | 0 <= i < j < |r| ensures !less(r[j], r[i]) {
        if j == |u| {
          assert r[i] == u[i];
          assert u[i] in multiset(u);
          assert u[i] == x || u[i] in multiset(init);
          if u[i] != x {
            var k :| 0 <= k < |init| && init[k] == u[i];
            assert t[k] == u[i];
          }
        }
      }
    }
  }

  /** The result is ordered by `less`. */
  lemma {:induction false} SortSorted<T(!new)>(s: seq<T>, less: (T, T) -> bool)
    requires StrictWeakOrder(less)
    ensures Sorted(Sort(s, less), less)
  {
    if s != [] {
      SortSorted(s[..|s| - 1], less);
      InsertSorted(Sort(s[..|s| - 1], less), s[|s| - 1], less);
    }
  }

  lemma {:induction false} InsertStable<T(!new)>(t: seq<T>, x: T, less: (T, T) -> bool, e: T)
    requires StrictWeakOrder(less)
    ensures Filter(Insert(t, x, less), z => Equiv(less, z, e)) == Filter(t + [x], z => Equiv(less, z, e))
  {
    var p := z => Equiv(less, z, e);
    if t != [] && less(x, t[|t| - 1]) {
      var init, last := t[..|t| - 1], t[|t| - 1];
      InsertStable(init, x, less, e);
      FilterAppend(Insert(init, x, less), [last], p);
      FilterAppend(init, [x], p);
      FilterAppend(init + [last], [x], p);
      FilterAppend(init, [last], p);
      assert t == init + [last];
      assert !(p(x) && p(last));
      assert Filter([x], p) + Filter([last], p) == Filter([last], p) + Filter([x], p);
    }
  }

  /** Elements that neither sorts before the other keep their relative order:
      for every e, the elements equivalent to e appear in the input's order. */
  lemma {:induction false} SortStable<T(!new)>(s: seq<T>, less: (T, T) -> bool, e: T)
    requires StrictWeakOrder(less)
    ensures Filter(Sort(s, less), z => Equiv(less, z, e)) == Filter(s, z => Equiv(less, z, e))
  {
    var p := z => Equiv(less, z, e);
    if s != [] {
      var init, x := s[..|s| - 1], s[|s| - 1];
      SortStable(init, less, e);
      InsertStable(Sort(init, less), x, less, e);
      FilterAppend(Sort(init, less), [x], p);
      FilterAppend(init, [x], p);
      assert s == init + [x];
    }
  }

  /** An already sorted sequence is left as it is. */
  lemma {:induction false} SortOfSorted<T>(s: seq<T>, less: (T, T) -> bool)
    requires Sorted(s, less)
    ensures Sort(s, less) == s
  {
    if s != [] {
      var init := s[..|s| - 1];
      assert Sorted(init, less);
      SortOfSorted(init, less);
      if |s| > 1 {
        assert !less(s[|s| - 1], init[|init| - 1]);
      }
      assert init + [s[|s| - 1]] == s;
    }
  }

  /** Sorting twice is sorting once. */
  lemma SortIdempotent<T(!new)>(s: seq<T>, less: (T, T) -> bool)
    requires StrictWeakOrder(less)
    ensures Sort(Sort(s, less), less) == Sort(s, less)
  {
    SortSorted(s, less);
    SortOfSorted(Sort(s, less), less);
  }

  /** With a "less" that never holds, nothing moves. */
  lemma SortNeverLess<T>(s: seq<T>, less: (T, T) -> bool)
    requires forall x, y :: !less(x, y)
    ensures Sort(s, less) == s
  {
    SortOfSorted(s, less);
  }

  /** Moving x one place further left keeps the final result in view. */
  lemma InsertStepLeft<T>(t: seq<T>, x: T, less: (T, T) -> bool, j: nat)
    requires 0 < j <= |t| && less(x, t[j - 1])
    ensures Insert(t[..j], x, less) + t[j..] == Insert(t[..j - 1], x, less) + t[j - 1..]
  {
    var u, last := t[..j - 1], t[j - 1];
    assert t[..j] == u + [last];
    assert (u + [last])[..|u|] == u;
    assert t[j - 1..] == [last] + t[j..];
  }

  /** Where x is not less than its left neighbour, it stays. */
  lemma InsertStops<T>(t: seq<T>, x: T, less: (T, T) -> bool, j: nat)
    requires j <= |t| && (j == 0 || !less(x, t[j - 1]))
    requires Insert(t, x, less) == Insert(t[..j], x, less) + t[j..]
    ensures Insert(t, x, less) == t[..j] + [x] + t[j..]
  {
  }

  /** One step of the in-place sort: `a[..i]` is sorted, and `a[i]` is swapped
      leftwards until no element before it is greater. */
  method InsertAt<T>(a: array<T>, i: nat, less: (T, T) -> bool)
    requires i < a.Length
    modifies a
    ensures a[..i + 1] == Insert(old(a[..i]), old(a[i]), less)
    ensures forall k :: i < k < a.Length ==> a[k] == old(a[k])
  {
    ghost var t := a[..i];
    ghost var x := a[i];
    var j := i;
    assert t[..j] == t;
    while j > 0 && less(a[j], a[j - 1])
      invariant 0 <= j <= i
      invariant forall k :: 0 <= k < j ==> a[k] == t[k]
      invariant a[j] == x
      invariant forall k :: j < k <= i ==> a[k] == t[k - 1]
      invariant forall k :: i < k < a.Length ==> a[k] == old(a[k])
      invariant Insert(t, x, less) == Insert(t[..j], x, less) + t[j..]
      decreases j
    {
      InsertStepLeft(t, x, less, j);
      a[j - 1], a[j] := a[j], a[j - 1];
      j := j - 1;
    }
    InsertStops(t, x, less, j);
    ghost var r := t[..j] + [x] + t[j..];
    assert forall k :: 0 <= k <= i ==> a[k] == r[k];
    assert a[..i + 1] == r;
  }

  /** Sorts `a` in place, one insertion step per element. */
  method SortInPlace<T>(a: array<T>, less: (T, T) -> bool)
    modifies a
    ensures a[..] == Sort(old(a[..]), less)
  {
    ghost var s := a[..];
    var i := 0;
    while i < a.Length
      invariant 0 <= i <= a.Length
      invariant a[..i] == Sort(s[..i], less)
      invariant forall k :: i <= k < a.Length ==> a[k] == s[k]
    {
      InsertAt(a, i, less);
      assert s[..i + 1][..i] == s[..i];
      i := i + 1;
    }
    assert s[..a.Length] == s;
  }
}
