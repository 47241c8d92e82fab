/** `Array.prototype.sort` with a numeric comparator `(a, b) => key(b) - key(a)`:
    a stable sort into non-increasing order of `key`.  ECMAScript requires the
    built-in sort to be stable, and a stable sort under a consistent
    comparator has exactly one possible result (`StableSortUnique`), so the
    insertion sort below stands for whatever algorithm the engine runs. */
module StableSort {

  ghost predicate SortedDesc<T>(s: seq<T>, key: T -> real) {
    forall i, j :: 0 <= i < j < |s| ==> key(s[i]) >= key(s[j])
  }

  /** The elements of `s` whose key is `k`, in their order in `s`. */
  function WithKey<T>(s: seq<T>, key: T -> real, k: real): seq<T> {
    if s == [] then []
    else (if key(s[0]) == k then [s[0]] else []) + WithKey(s[1..], key, k)
  }

  /** Puts `x` in front of the first element whose key is not greater than
      its own, so `x` precedes every element of equal key. */
  function Insert<T>(x: T, s: seq<T>, key: T -> real): (r: seq<T>)
    ensures multiset(r) == multiset(s) + multiset{x}
  {
    if s == [] || key(x) >= key(s[0]) then [x] + s
    else
      assert s == [s[0]] + s[1..];
      [s[0]] + Insert(x, s[1..], key)
  }

  lemma {:induction false} InsertSorted<T>(x: T, s: seq<T>, key: T -> real)
    requires SortedDesc(s, key)
    ensures SortedDesc(Insert(x, s, key), key)
  {
    if s != [] && key(x) < key(s[0]) {
      var r' := Insert(x, s[1..], key);
      InsertSorted(x, s[1..], key);
      forall i | 0 <= i < |r'| ensures key(s[0]) >= key(r'[i]) {
        assert r'[i] in multiset(r');
        assert r'[i] in multiset(s[1..]) || r'[i] == x;
        if r'[i] != x {
          var j :| 0 <= j < |s[1..]| && s[1..][j] == r'[i];
          assert s[j + 1] == r'[i];
        }
      }
      var r := Insert(x, s, key);
      assert r == [s[0]] + r';
    }
  }

  /** The stable sort into non-increasing key order. */
  function SortDesc<T>(s: seq<T>, key: T -> real): (r: seq<T>)
    ensures |r| == |s|
    ensures multiset(r) == multiset(s)
    ensures SortedDesc(r, key)
  {
    if s == [] then []
    else
      assert s == [s[0]] + s[1..];
      assert |Insert(s[0], SortDesc(s[1..], key), key)| == |multiset(Insert(s[0], SortDesc(s[1..], key), key))|;
      InsertSorted(s[0], SortDesc(s[1..], key), key);
      Insert(s[0], SortDesc(s[1..], key), key)
  }

  /** Inserting `x` puts it ahead of every element of its own key. */
  lemma {:induction false} InsertWithKey<T>(x: T, t: seq<T>, key: T -> real, k: real)
    ensures WithKey(Insert(x, t, key), key, k) == (if key(x) == k then [x] else []) + WithKey(t, key, k)
    decreases |t|, 1
  {
    if t == [] || key(x) >= key(t[0]) {
      InsertFrontWithKey(x, t, key, k);
    } else {
      InsertLaterWithKey(x, t, key, k);
    }
  }

  lemma InsertFrontWithKey<T>(x: T, t: seq<T>, key: T -> real, k: real)
    requires t == [] || key(x) >= key(t[0])
    ensures WithKey(Insert(x, t, key), key, k) == (if key(x) == k then [x] else []) + WithKey(t, key, k)
  {
    assert ([x] + t)[1..] == t;
  }

  lemma {:induction false} InsertLaterWithKey<T>(x: T, t: seq<T>, key: T -> real, k: real)
    requires t != [] && key(x) < key(t[0])
    ensures WithKey(Insert(x, t, key), key, k) == (if key(x) == k then [x] else []) + WithKey(t, key, k)
    decreases |t|, 0
  {
    InsertWithKey(x, t[1..], key, k);
    var r := Insert(x, t, key);
    assert r[1..] == Insert(x, t[1..], key);
  }

  /** Stability: the elements of any one key keep their relative order. */
  lemma {:induction false} SortStable<T>(s: seq<T>, key: T -> real, k: real)
    ensures WithKey(SortDesc(s, key), key, k) == WithKey(s, key, k)
  {
    if s != [] {
      SortStable(s[1..], key, k);
      InsertWithKey(s[0], SortDesc(s[1..], key), key, k);
    }
  }

  /** A sequence that is already in order is left as it is. */
  lemma {:induction false} SortOfSorted<T>(s: seq<T>, key: T -> real)
    requires SortedDesc(s, key)
    ensures SortDesc(s, key) == s
  {
    if s != [] {
      SortOfSorted(s[1..], key);
      assert s == [s[0]] + s[1..];
    }
  }

  /** Sorting twice is sorting once. */
  /** An element with a smaller key than every other is inserted last. */
  lemma {:induction false} InsertLast<T>(x: T, s: seq<T>, key: T -> real)
    requires forall i :: 0 <= i < |s| ==> key(x) < key(s[i])
    ensures Insert(x, s, key) == s + [x]
  {
    if s != [] {
      InsertLast(x, s[1..], key);
      assert s == [s[0]] + s[1..];
    }
  }

  /** The sort of a non-empty sequence inserts its head into the sort of
      its tail. */
  lemma SortCons<T>(s: seq<T>, key: T -> real)
    requires s != []
    ensures SortDesc(s, key) == Insert(s[0], SortDesc(s[1..], key), key)
  {
  }

  /** A sequence that is in order after its first element, whose first
      element has the least key, sorts into its tail followed by its head. */
  lemma SortRotates<T>(s: seq<T>, key: T -> real)
    requires s != [] && SortedDesc(s[1..], key)
    requires forall i :: 1 <= i < |s| ==> key(s[0]) < key(s[i])
    ensures SortDesc(s, key) == s[1..] + [s[0]]
  {
    SortOfSorted(s[1..], key);
    InsertLast(s[0], s[1..], key);
  }

  lemma SortIdempotent<T>(s: seq<T>, key: T -> real)
    ensures SortDesc(SortDesc(s, key), key) == SortDesc(s, key)
  {
    SortOfSorted(SortDesc(s, key), key);
  }

  lemma {:induction false} WithKeyHead<T>(s: seq<T>, key: T -> real)
    requires s != []
    ensures WithKey(s, key, key(s[0])) == [s[0]] + WithKey(s[1..], key, key(s[0]))
  {
  }

  lemma {:induction false} WithKeyNonEmpty<T>(s: seq<T>, key: T -> real, i: int)
    requires 0 <= i < |s|
    ensures WithKey(s, key, key(s[i])) != []
  {
    if i > 0 && key(s[0]) != key(s[i]) {
      WithKeyNonEmpty(s[1..], key, i - 1);
    }
  }

  lemma {:induction false} WithKeyMember<T>(s: seq<T>, key: T -> real, k: real)
    requires WithKey(s, key, k) != []
    ensures exists i :: 0 <= i < |s| && key(s[i]) == k
  {
    if key(s[0]) != k {
      WithKeyMember(s[1..], key, k);
      var i :| 0 <= i < |s[1..]| && key(s[1..][i]) == k;
      assert key(s[i + 1]) == k;
    }
  }

  /** Two sequences in non-increasing key order that agree on the order of
      the elements of every key are equal. */
  lemma {:induction false} SortedUnique<T>(r: seq<T>, t: seq<T>, key: T -> real)
    requires SortedDesc(r, key) && SortedDesc(t, key)
    requires forall k :: WithKey(r, key, k) == WithKey(t, key, k)
    ensures r == t
    decreases |r|
  {
    if r == [] {
      if t != [] {
        WithKeyNonEmpty(t, key, 0);
        assert false;
      }
    } else if t == [] {
      WithKeyNonEmpty(r, key, 0);
      assert false;
    } else {
      var kr, kt := key(r[0]), key(t[0]);
      if kr > kt {
        WithKeyNonEmpty(r, key, 0);
        WithKeyMember(t, key, kr);
        assert false;
      } else if kt > kr {
        WithKeyNonEmpty(t, key, 0);
        WithKeyMember(r, key, kt);
        assert false;
      }
      assert kr == kt;
      WithKeyHead(r, key);
      WithKeyHead(t, key);
      assert WithKey(r, key, kr) == WithKey(t, key, kr);
      assert r[0] == WithKey(r, key, kr)[0] == WithKey(t, key, kr)[0] == t[0];
      forall k ensures WithKey(r[1..], key, k) == WithKey(t[1..], key, k) {
        assert WithKey(r, key, k) == WithKey(t, key, k);
        if k != kr {
          assert key(t[0]) != k;
          assert WithKey(r, key, k) == WithKey(r[1..], key, k);
          assert WithKey(t, key, k) == WithKey(t[1..], key, k);
        } else {
          assert WithKey(r, key, k) == [r[0]] + WithKey(r[1..], key, k);
          assert WithKey(t, key, k) == [t[0]] + WithKey(t[1..], key, k);
          assert WithKey(r, key, k)[1..] == WithKey(r[1..], key, k);
          assert WithKey(t, key, k)[1..] == WithKey(t[1..], key, k);
          assert WithKey(r[1..], key, k) == WithKey(t[1..], key, k);
        }
      }
      SortedUnique(r[1..], t[1..], key);
      assert r == [r[0]] + r[1..];
      assert t == [t[0]] + t[1..];
    }
  }

  /** Any stable sort of `s` into non-increasing key order is `SortDesc(s)`. */
  lemma StableSortUnique<T>(s: seq<T>, r: seq<T>, key: T -> real)
    requires SortedDesc(r, key)
    requires forall k :: WithKey(r, key, k) == WithKey(s, key, k)
    ensures r == SortDesc(s, key)
  {
    forall k ensures WithKey(r, key, k) == WithKey(SortDesc(s, key), key, k) {
      SortStable(s, key, k);
    }
    SortedUnique(r, SortDesc(s, key), key);
  }

  /** In a sequence in non-increasing key order, a prefix is in order and
      everything in it has a key at least that of everything after it. */
  lemma SortedTake<T>(s: seq<T>, key: T -> real, n: int)
    requires SortedDesc(s, key) && 0 <= n <= |s|
    ensures multiset(s[..n]) <= multiset(s)
    ensures SortedDesc(s[..n], key)
    ensures forall t, u :: t in s[..n] && u in multiset(s) - multiset(s[..n]) ==> key(t) >= key(u)
  {
    assert s == s[..n] + s[n..];
    assert multiset(s) == multiset(s[..n]) + multiset(s[n..]);
    SortedPrefix(s, key, n);
    forall t, u | t in s[..n] && u in multiset(s) - multiset(s[..n]) ensures key(t) >= key(u) {
      var i :| 0 <= i < n && s[..n][i] == t;
      assert u in s[n..];
      var j :| 0 <= j < |s| - n && s[n..][j] == u;
      assert s[i] == t && s[n + j] == u;
    }
  }

  /** The first `n` elements of the sorted sequence: `n` elements of `s`,
      in order, each with a key at least that of every element left out. */
  lemma TakeSorted<T>(s: seq<T>, key: T -> real, n: int)
    requires 0 <= n <= |s|
    ensures var r := SortDesc(s, key)[..n];
      && |r| == n
      && multiset(r) <= multiset(s)
      && SortedDesc(r, key)
      && forall t, u :: t in r && u in multiset(s) - multiset(r) ==> key(t) >= key(u)
  {
    SortedTake(SortDesc(s, key), key, n);
  }

  lemma SortedPrefix<T>(s: seq<T>, key: T -> real, n: int)
    requires SortedDesc(s, key) && 0 <= n <= |s|
    ensures SortedDesc(s[..n], key)
  {
    forall i, j | 0 <= i < j < n ensures key(s[..n][i]) >= key(s[..n][j]) {
      assert s[..n][i] == s[i] && s[..n][j] == s[j];
    }
  }
}
