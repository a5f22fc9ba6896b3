/**
 * The order in which a module store's iterator visits its keys: ascending
 * `bytes.Compare` order. `SortedKeys` is that visiting order for a set of
 * keys; `Iterate` produces it the way a caller of the iterator sees it.
 */
module KeyOrder {
  import opened Sdk

  /** `bytes.Compare(a, b) < 0`: lexicographic, a proper prefix sorting first. */
  predicate Less(a: Bytes, b: Bytes) {
    if a == [] then b != []
    else if b == [] then false
    else if a[0] != b[0] then a[0] < b[0]
    else Less(a[1..], b[1..])
  }

  lemma {:induction false} LessIrreflexive(a: Bytes)
    ensures !Less(a, a)
  {
    if a != [] {
      LessIrreflexive(a[1..]);
    }
  }

  lemma {:induction false} LessTransitive(a: Bytes, b: Bytes, c: Bytes)
    requires Less(a, b) && Less(b, c)
    ensures Less(a, c)
    decreases |a|
  {
    if a != [] && a[0] == b[0] && b[0] == c[0] {
      LessTransitive(a[1..], b[1..], c[1..]);
    }
  }

  lemma {:induction false} LessTotal(a: Bytes, b: Bytes)
    requires a != b
    ensures Less(a, b) || Less(b, a)
    decreases |a|
  {
    if a != [] && b != [] && a[0] == b[0] {
      assert a == [a[0]] + a[1..] && b == [b[0]] + b[1..];
      LessTotal(a[1..], b[1..]);
    }
  }

  lemma LessAsymmetric(a: Bytes, b: Bytes)
    requires Less(a, b)
    ensures !Less(b, a)
  {
    if Less(b, a) {
      LessTransitive(a, b, a);
      LessIrreflexive(a);
    }
  }

  /** Strictly ascending, hence without repetitions. */
  ghost predicate StrictlySorted(r: seq<Bytes>) {
    forall i, j :: 0 <= i < j < |r| ==> Less(r[i], r[j])
  }

  /** k is the first key of ks in iteration order. */
  predicate IsFirst(k: Bytes, ks: set<Bytes>) {
    k in ks && forall j :: j in ks && j != k ==> Less(k, j)
  }

  lemma {:induction false} FirstExists(ks: set<Bytes>)
    requires ks != {}
    ensures exists k :: IsFirst(k, ks)
    decreases |ks|
  {
    var x :| x in ks;
    if ks != {x} {
      var rest := ks - {x};
      FirstExists(rest);
      var m :| IsFirst(m, rest);
      if Less(m, x) {
        forall j | j in ks && j != m ensures Less(m, j) {
          if j == x {
          }
        }
        assert IsFirst(m, ks);
      } else {
        LessTotal(m, x);
        forall j | j in ks && j != x ensures Less(x, j) {
          if j != m {
            LessTransitive(x, m, j);
          }
        }
        assert IsFirst(x, ks);
      }
    } else {
      assert IsFirst(x, ks);
    }
  }

  lemma FirstUnique(k1: Bytes, k2: Bytes, ks: set<Bytes>)
    requires IsFirst(k1, ks) && IsFirst(k2, ks)
    ensures k1 == k2
  {
    if k1 != k2 {
      LessAsymmetric(k1, k2);
    }
  }

  ghost function First(ks: set<Bytes>): (k: Bytes)
    requires ks != {}
    ensures IsFirst(k, ks)
  {
    FirstExists(ks);
    var k :| IsFirst(k, ks);
    k
  }

  /** The keys of a store in the order its iterator visits them. */
  ghost function SortedKeys(ks: set<Bytes>): (r: seq<Bytes>)
    decreases |ks|
  {
    if ks == {} then [] else var k := First(ks); [k] + SortedKeys(ks - {k})
  }

  /** Every key is visited exactly once, in ascending order. */
  lemma {:induction false} SortedKeysSpec(ks: set<Bytes>)
    ensures |SortedKeys(ks)| == |ks|
    ensures forall k :: k in ks <==> k in SortedKeys(ks)
    ensures StrictlySorted(SortedKeys(ks))
    decreases |ks|
  {
    if ks != {} {
      var k := First(ks);
      SortedKeysSpec(ks - {k});
      var r := SortedKeys(ks);
      assert r == [k] + SortedKeys(ks - {k});
      forall i, j | 0 <= i < j < |r| ensures Less(r[i], r[j]) {
        if i == 0 {
          assert r[j] in ks - {k};
        }
      }
    }
  }

  /** `store.Iterator(nil, nil)`: the keys, in iteration order. */
  method Iterate(ks: set<Bytes>) returns (r: seq<Bytes>)
    ensures r == SortedKeys(ks)
  {
    r := [];
    var remaining := ks;
    while remaining != {}
      invariant r + SortedKeys(remaining) == SortedKeys(ks)
      decreases |remaining|
    {
      FirstExists(remaining);
      var k :| IsFirst(k, remaining);
      FirstUnique(k, First(remaining), remaining);
      r := r + [k];
      remaining := remaining - {k};
    }
  }

  /** One step of a loop deleting the keys in iteration order: once the
      keys still stored are among `keys[i..]`, deleting `keys[i]` leaves them
      among `keys[i + 1..]`. */
  lemma DeleteNextKey<V>(m: map<Bytes, V>, keys: seq<Bytes>, i: nat)
    requires i < |keys|
    requires forall k :: k in m ==> k in keys[i..]
    ensures forall k :: k in m - {keys[i]} ==> k in keys[i + 1..]
  {
    assert keys[i..] == [keys[i]] + keys[i + 1..];
  }

  /** The values of a store in iteration order: what the list methods return. */
  ghost function InKeyOrder<V>(m: map<Bytes, V>): (r: seq<V>)
  {
    var ks := SortedKeys(m.Keys);
    SortedKeysSpec(m.Keys);
    seq(|ks|, i requires 0 <= i < |ks| => m[ks[i]])
  }

  /** Every stored value is listed, at the position of its key, and nothing else is. */
  lemma InKeyOrderSpec<V>(m: map<Bytes, V>)
    ensures |InKeyOrder(m)| == |m.Keys| == |SortedKeys(m.Keys)|
    ensures forall i :: 0 <= i < |InKeyOrder(m)| ==> SortedKeys(m.Keys)[i] in m && InKeyOrder(m)[i] == m[SortedKeys(m.Keys)[i]]
    ensures forall v :: v in InKeyOrder(m) <==> v in m.Values
  {
    SortedKeysSpec(m.Keys);
    var r, ks := InKeyOrder(m), SortedKeys(m.Keys);
    forall v | v in m.Values ensures v in r {
      var k :| k in m && m[k] == v;
      var i :| 0 <= i < |ks| && ks[i] == k;
      assert r[i] == v;
    }
  }

  /** When each value records its own key, no value is listed twice. */
  lemma InKeyOrderDistinct<V>(m: map<Bytes, V>, key: V -> Bytes)
    requires forall k :: k in m ==> key(m[k]) == k
    ensures forall i, j :: 0 <= i < j < |InKeyOrder(m)| ==> InKeyOrder(m)[i] != InKeyOrder(m)[j]
  {
    InKeyOrderSpec(m);
    SortedKeysSpec(m.Keys);
    var r, ks := InKeyOrder(m), SortedKeys(m.Keys);
    forall i, j | 0 <= i < j < |r| ensures r[i] != r[j] {
      assert Less(ks[i], ks[j]);
      LessIrreflexive(ks[i]);
      assert key(r[i]) == ks[i] && key(r[j]) == ks[j];
    }
  }
}
