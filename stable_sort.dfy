/** `Array.prototype.sort` with a comparator that orders by a numeric key, highest
    first. ECMAScript requires the sort to be stable, so the result is the unique
    ordering that is non-increasing in the key and keeps the input order among
    elements with equal keys; it is modelled here by a stable insertion sort. */
module StableSort {

  /** Non-increasing by `key`. */
  predicate SortedDesc<T>(key: T -> int, s: seq<T>) {
    forall i, j :: 0 <= i < j < |s| ==> key(s[i]) >= key(s[j])
  }

  /** The elements whose key is `k`, in order. */
  function WithKey<T>(key: T -> int, k: int, s: seq<T>): seq<T> {
    if s == [] then [] else (if key(s[0]) == k then [s[0]] else []) + WithKey(key, k, s[1..])
  }

  lemma {:induction false} WithKeyCons<T>(key: T -> int, k: int, x: T, s: seq<T>)
    ensures WithKey(key, k, [x] + s) == (if key(x) == k then [x] else []) + WithKey(key, k, s)
  {
    assert ([x] + s)[1..] == s;
  }

  lemma {:induction false} WithKeyAppend<T>(key: T -> int, k: int, a: seq<T>, b: seq<T>)
    ensures WithKey(key, k, a + b) == WithKey(key, k, a) + WithKey(key, k, b)
  {
    if a != [] {
      var t := a[1..];
      WithKeyAppend(key, k, t, b);
      var p := if key(a[0]) == k then [a[0]] else [];
      assert a + b == [a[0]] + (t + b);
      assert a == [a[0]] + t;
      WithKeyCons(key, k, a[0], t + b);
      WithKeyCons(key, k, a[0], t);
      assert WithKey(key, k, a + b) == p + (WithKey(key, k, t) + WithKey(key, k, b));
    } else {
      assert a + b == b;
    }
  }

  /** Inserts `x` before the first element whose key is not larger than its own. */
  function Insert<T>(key: T -> int, x: T, s: seq<T>): (r: seq<T>)
    ensures |r| == |s| + 1
  {
    if s == [] || key(s[0]) <= key(x) then [x] + s
    else [s[0]] + Insert(key, x, s[1..])
  }

  function Sort<T>(key: T -> int, s: seq<T>): (r: seq<T>)
    ensures |r| == |s|
  {
    if s == [] then [] else Insert(key, s[0], Sort(key, s[1..]))
  }

  lemma {:induction false} InsertPermutes<T>(key: T -> int, x: T, s: seq<T>)
    ensures multiset(Insert(key, x, s)) == multiset(s) + multiset{x}
  {
    if s != [] && key(s[0]) > key(x) {
      InsertPermutes(key, x, s[1..]);
      assert s == [s[0]] + s[1..];
    }
  }

  /** The sorted result is a permutation of the input. */
  lemma {:induction false} SortPermutes<T>(key: T -> int, s: seq<T>)
    ensures multiset(Sort(key, s)) == multiset(s)
  {
    if s != [] {
      SortPermutes(key, s[1..]);
      InsertPermutes(key, s[0], Sort(key, s[1..]));
      assert s == [s[0]] + s[1..];
    }
  }

  lemma {:induction false} InsertSorted<T>(key: T -> int, x: T, s: seq<T>)
    requires SortedDesc(key, s)
    ensures SortedDesc(key, Insert(key, x, s))
  {
    if s != [] && key(s[0]) > key(x) {
      InsertSorted(key, x, s[1..]);
      InsertPermutes(key, x, s[1..]);
      var r := Insert(key, x, s);
      var t := Insert(key, x, s[1..]);
      assert r == [s[0]] + t;
      forall j | 0 < j < |r| ensures key(r[0]) >= key(r[j]) {
        assert r[j] == t[j - 1];
        assert r[j] in multiset(t);
        assert r[j] in multiset(s[1..]) + multiset{x};
        if r[j] != x {
          assert r[j] in s[1..];
        }
      }
    }
  }

  /** The sorted result is non-increasing by key. */
  lemma {:induction false} SortSorted<T>(key: T -> int, s: seq<T>)
    ensures SortedDesc(key, Sort(key, s))
  {
    if s != [] {
      SortSorted(key, s[1..]);
      InsertSorted(key, s[0], Sort(key, s[1..]));
    }
  }

  lemma {:induction false} InsertWithKey<T>(key: T -> int, x: T, s: seq<T>, k: int)
    requires SortedDesc(key, s)
    ensures WithKey(key, k, Insert(key, x, s)) == WithKey(key, k, [x] + s)
  {
    if s != [] && key(s[0]) > key(x) {
      var t := s[1..];
      InsertWithKey(key, x, t, k);
      InsertPassing(key, x, s, k);
    }
  }

  /** One step of `InsertWithKey`: `x` moves past a head with a larger key. */
  lemma {:induction false} InsertPassing<T>(key: T -> int, x: T, s: seq<T>, k: int)
    requires s != [] && key(s[0]) > key(x)
    requires WithKey(key, k, Insert(key, x, s[1..])) == WithKey(key, k, [x] + s[1..])
    ensures WithKey(key, k, Insert(key, x, s)) == WithKey(key, k, [x] + s)
  {
    var h, t := s[0], s[1..];
    var L := WithKey(key, k, t);
    var sx := if key(h) == k then [h] else [];
    var xx := if key(x) == k then [x] else [];
    var it := Insert(key, x, t);
    assert Insert(key, x, s) == [h] + it;
    WithKeyCons(key, k, h, it);
    WithKeyCons(key, k, x, t);
    assert WithKey(key, k, it) == xx + L;
    assert s == [h] + t;
    WithKeyCons(key, k, h, t);
    WithKeyCons(key, k, x, s);
    assert WithKey(key, k, s) == sx + L;
    assert sx == [] || xx == [];
  }

  /** Stability: for every key value, the elements carrying it keep their input order. */
  lemma {:induction false} SortStable<T>(key: T -> int, s: seq<T>, k: int)
    ensures WithKey(key, k, Sort(key, s)) == WithKey(key, k, s)
  {
    if s != [] {
      var t := Sort(key, s[1..]);
      SortStable(key, s[1..], k);
      SortSorted(key, s[1..]);
      InsertWithKey(key, s[0], t, k);
      WithKeyCons(key, k, s[0], t);
    }
  }

  lemma {:induction false} WithKeyMember<T>(key: T -> int, k: int, s: seq<T>, i: nat)
    requires i < |WithKey(key, k, s)|
    ensures exists j :: 0 <= j < |s| && s[j] == WithKey(key, k, s)[i] && key(s[j]) == k
  {
    if key(s[0]) == k && i == 0 {
      assert s[0] == WithKey(key, k, s)[0];
    } else {
      var d := if key(s[0]) == k then 1 else 0;
      WithKeyMember(key, k, s[1..], i - d);
      var j :| 0 <= j < |s[1..]| && s[1..][j] == WithKey(key, k, s[1..])[i - d] && key(s[1..][j]) == k;
      assert s[j + 1] == WithKey(key, k, s)[i];
    }
  }

  /** The first element of a sequence always shows up under its own key. */
  lemma {:induction false} WithKeyHead<T>(key: T -> int, s: seq<T>)
    ensures s != [] ==> WithKey(key, key(s[0]), s) != []
  {
  }

  /** A sequence with no element of any key is empty. */
  lemma {:induction false} WithKeyEmpty<T>(key: T -> int, s: seq<T>)
    requires forall k :: WithKey(key, k, s) == []
    ensures s == []
  {
    WithKeyHead(key, s);
  }

  /** Sortedness and stability determine the order completely: two sequences that
      are non-increasing by key and have the same elements per key, in the same
      order, are equal. With SortSorted and SortStable this pins `Sort` down as the
      one stable descending order of its input. */
  lemma {:induction false} SortUnique<T>(key: T -> int, a: seq<T>, b: seq<T>)
    requires SortedDesc(key, a) && SortedDesc(key, b)
    requires forall k :: WithKey(key, k, a) == WithKey(key, k, b)
    ensures a == b
    decreases |a|
  {
    if a != [] && b != [] {
      var ka, kb := key(a[0]), key(b[0]);
      assert WithKey(key, ka, a)[0] == a[0];
      WithKeyMember(key, ka, b, 0);
      assert WithKey(key, kb, b)[0] == b[0];
      WithKeyMember(key, kb, a, 0);
      assert ka == kb;
      assert a[0] == b[0];
      forall k ensures WithKey(key, k, a[1..]) == WithKey(key, k, b[1..]) {
        assert a == [a[0]] + a[1..] && b == [b[0]] + b[1..];
        WithKeyCons(key, k, a[0], a[1..]);
        WithKeyCons(key, k, b[0], b[1..]);
        var p := if key(a[0]) == k then [a[0]] else [];
        assert p + WithKey(key, k, a[1..]) == p + WithKey(key, k, b[1..]);
        assert WithKey(key, k, a[1..]) == (p + WithKey(key, k, a[1..]))[|p|..];
      }
      SortUnique(key, a[1..], b[1..]);
    } else if a == [] {
      WithKeyEmpty(key, b);
    } else {
      WithKeyEmpty(key, a);
    }
  }
}
