/** A plain JavaScript object with string keys, seen as the list of its
    own properties in enumeration order.  For keys that are not array
    indices that order is the order in which the keys were first assigned,
    and assigning to an existing key keeps its place. */
module JsObject {
  import opened Wrappers
  import opened JsSet

  type Entries<V> = seq<(string, V)>

  /** `Object.keys(o)`. */
  function Keys<V>(o: Entries<V>): (ks: seq<string>)
    ensures |ks| == |o|
  {
    if o == [] then [] else [o[0].0] + Keys(o[1..])
  }

  lemma {:induction false} KeysAt<V>(o: Entries<V>)
    ensures forall i :: 0 <= i < |o| ==> Keys(o)[i] == o[i].0
  {
    if o != [] {
      KeysAt(o[1..]);
      assert forall i :: 1 <= i < |o| ==> Keys(o)[i] == Keys(o[1..])[i - 1];
    }
  }

  ghost predicate UniqueKeys<V>(o: Entries<V>) {
    forall i, j :: 0 <= i < j < |o| ==> o[i].0 != o[j].0
  }

  /** `o[k]`, with `None` for `undefined`. */
  function Get<V>(o: Entries<V>, k: string): (r: Option<V>)
    ensures r.None? <==> k !in Keys(o)
    ensures r.Some? ==> exists i :: 0 <= i < |o| && o[i] == (k, r.value)
  {
    if o == [] then None
    else if o[0].0 == k then Some(o[0].1)
    else
      var r := Get(o[1..], k);
      assert Keys(o) == [o[0].0] + Keys(o[1..]);
      assert r.Some? ==> exists i :: 0 <= i < |o| && o[i] == (k, r.value) by {
        if r.Some? {
          var i :| 0 <= i < |o[1..]| && o[1..][i] == (k, r.value);
          assert o[i + 1] == (k, r.value);
        }
      }
      r
  }

  /** `o[k] = v`: overwrites in place when `k` is already a key, otherwise
      adds `k` last. */
  function Put<V>(o: Entries<V>, k: string, v: V): (r: Entries<V>)
    ensures Keys(r) == if k in Keys(o) then Keys(o) else Keys(o) + [k]
  {
    if o == [] then [(k, v)]
    else if o[0].0 == k then
      assert Keys(o) == [k] + Keys(o[1..]);
      [(k, v)] + o[1..]
    else
      var r := [o[0]] + Put(o[1..], k, v);
      assert Keys(o) == [o[0].0] + Keys(o[1..]);
      assert Keys(r) == [o[0].0] + Keys(Put(o[1..], k, v));
      r
  }

  /** Reading a key back after writing it gives the value written, and no
      other key changes. */
  lemma {:induction false} PutGet<V>(o: Entries<V>, k: string, v: V, k': string)
    ensures Get(Put(o, k, v), k') == if k' == k then Some(v) else Get(o, k')
  {
    if o != [] && o[0].0 != k {
      PutGet(o[1..], k, v, k');
    }
  }

  /** The keys after a write are the keys before it with the written key
      added as a `Set` adds it. */
  lemma PutKeys<V>(o: Entries<V>, k: string, v: V)
    ensures Keys(Put(o, k, v)) == Add(Keys(o), k)
  {
  }

  /** A second write to the same key replaces the first. */
  lemma {:induction false} PutPut<V>(o: Entries<V>, k: string, v: V, w: V)
    ensures Put(Put(o, k, v), k, w) == Put(o, k, w)
  {
    if o != [] && o[0].0 != k {
      PutPut(o[1..], k, v, w);
    }
  }

  /** With distinct keys, reading the key of an entry gives that entry's
      value. */
  lemma {:induction false} GetAt<V>(o: Entries<V>, i: int)
    requires UniqueKeys(o) && 0 <= i < |o|
    ensures Get(o, o[i].0) == Some(o[i].1)
  {
    if i > 0 {
      assert o[0].0 != o[i].0;
      assert UniqueKeys(o[1..]) by {
        forall a, b | 0 <= a < b < |o| - 1 ensures o[1..][a].0 != o[1..][b].0 {
          assert o[1..][a] == o[a + 1] && o[1..][b] == o[b + 1];
        }
      }
      GetAt(o[1..], i - 1);
    }
  }

  /** Writing keeps the keys distinct. */
  lemma {:induction false} PutUnique<V>(o: Entries<V>, k: string, v: V)
    requires UniqueKeys(o)
    ensures UniqueKeys(Put(o, k, v))
  {
    var r := Put(o, k, v);
    var ks := Keys(r);
    KeysAt(r);
    KeysAt(o);
    forall i, j | 0 <= i < j < |r| ensures r[i].0 != r[j].0 {
      assert ks[i] == r[i].0 && ks[j] == r[j].0;
      if j >= |o| {
        assert k !in Keys(o) && ks[j] == k;
        assert ks[i] == Keys(o)[i];
      } else {
        assert ks[i] == Keys(o)[i] && ks[j] == Keys(o)[j];
      }
    }
  }

  /** Writing a key that is not there yet appends it. */
  lemma {:induction false} PutFresh<V>(o: Entries<V>, k: string, v: V)
    requires k !in Keys(o)
    ensures Put(o, k, v) == o + [(k, v)]
  {
    if o != [] {
      assert Keys(o) == [o[0].0] + Keys(o[1..]);
      PutFresh(o[1..], k, v);
      assert o == [o[0]] + o[1..];
    }
  }

  /** `es.reduce((acc, [k, v]) => { acc[k] = v; return acc; }, acc)`. */
  function Assign<V>(acc: Entries<V>, es: Entries<V>): Entries<V>
    decreases |es|
  {
    if es == [] then acc else Assign(Put(acc, es[0].0, es[0].1), es[1..])
  }

  /** Assigning entries with distinct keys to an empty object rebuilds
      them, in order. */
  lemma AssignUnique<V>(es: Entries<V>)
    requires UniqueKeys(es)
    ensures Assign([], es) == es
  {
    assert es[..0] == [] && es[0..] == es;
    AssignRest(es, 0);
  }

  lemma {:induction false} AssignRest<V>(es: Entries<V>, n: int)
    requires UniqueKeys(es) && 0 <= n <= |es|
    ensures Assign(es[..n], es[n..]) == es
    decreases |es| - n
  {
    if n < |es| {
      AssignStep(es, n);
      assert es[n..][1..] == es[n + 1..];
      AssignRest(es, n + 1);
    } else {
      assert es[..n] == es;
    }
  }

  lemma AssignStep<V>(es: Entries<V>, n: int)
    requires UniqueKeys(es) && 0 <= n < |es|
    ensures Put(es[..n], es[n].0, es[n].1) == es[..n + 1]
  {
    KeysAt(es[..n]);
    assert es[n].0 !in Keys(es[..n]) by {
      forall i | 0 <= i < n ensures Keys(es[..n])[i] != es[n].0 {
        assert es[..n][i] == es[i];
      }
    }
    PutFresh(es[..n], es[n].0, es[n].1);
    assert es[..n + 1] == es[..n] + [es[n]];
  }
}

/** A JavaScript `Set` (or an array grown with `includes`-guarded `push`),
    seen as the sequence of its elements in insertion order. */
module JsSet {
  import opened Seqs

  ghost predicate NoDup<T>(s: seq<T>) {
    forall i, j :: 0 <= i < j < |s| ==> s[i] != s[j]
  }

  /** Distinct elements of a concatenation: each part is distinct and
      the parts share nothing. */
  lemma NoDupAppend<T>(a: seq<T>, b: seq<T>)
    requires NoDup(a + b)
    ensures NoDup(a) && NoDup(b) && forall x :: x in b ==> x !in a
  {
    forall i, j | 0 <= i < |a| && 0 <= j < |b| ensures a[i] != b[j] {
      assert (a + b)[i] == a[i] && (a + b)[|a| + j] == b[j];
    }
    forall i, j | 0 <= i < j < |b| ensures b[i] != b[j] {
      assert (a + b)[|a| + i] == b[i] && (a + b)[|a| + j] == b[j];
    }
    forall i, j | 0 <= i < j < |a| ensures a[i] != a[j] {
      assert (a + b)[i] == a[i] && (a + b)[j] == a[j];
    }
  }

  /** `set.add(x)`: appends `x` unless it is already present. */
  function Add<T(==)>(s: seq<T>, x: T): (r: seq<T>)
    ensures x in r && (x in s ==> r == s) && (x !in s ==> r == s + [x])
  {
    if x in s then s else s + [x]
  }

  /** The tail of a sequence of distinct elements is distinct and does not
      hold the head. */
  lemma NoDupTail<T>(s: seq<T>)
    requires NoDup(s) && s != []
    ensures NoDup(s[1..]) && s[0] !in s[1..]
  {
    forall a, b | 0 <= a < b < |s| - 1 ensures s[1..][a] != s[1..][b] {
      assert s[1..][a] == s[a + 1] && s[1..][b] == s[b + 1];
    }
    forall j | 0 <= j < |s| - 1 ensures s[1..][j] != s[0] {
      assert s[1..][j] == s[j + 1];
    }
  }

  lemma AddNoDup<T>(s: seq<T>, x: T)
    requires NoDup(s)
    ensures NoDup(Add(s, x))
  {
  }

  /** Adds each element of `xs` in turn, skipping those already present. */
  function AddAll<T(==, !new)>(acc: seq<T>, xs: seq<T>): (r: seq<T>)
    ensures |acc| <= |r| <= |acc| + |xs| && r[..|acc|] == acc
    ensures NoDup(acc) ==> NoDup(r)
    ensures forall x :: x in r <==> x in acc || x in xs
    decreases |xs|
  {
    if xs == [] then acc
    else
      var acc' := Add(acc, xs[0]);
      assert forall x :: x in acc' + xs[1..] <==> x in acc + xs by {
        assert xs == [xs[0]] + xs[1..];
      }
      var r := AddAll(acc', xs[1..]);
      assert r[..|acc|] == r[..|acc'|][..|acc|];
      r
  }

  /** Adding `[x] + xs` is adding `x`, then the elements of `xs`. */
  lemma AddAllCons<T(!new)>(acc: seq<T>, x: T, xs: seq<T>)
    ensures AddAll(acc, [x] + xs) == AddAll(Add(acc, x), xs)
  {
    assert ([x] + xs)[0] == x && ([x] + xs)[1..] == xs;
  }

  /** Adding distinct new elements of a prefix of `xs` appends them all. */
  lemma AddAllFreshPrefix<T(!new)>(acc: seq<T>, xs: seq<T>, n: int)
    requires NoDup(acc + xs) && 0 <= n <= |xs|
    ensures AddAll(acc, xs[..n]) == acc + xs[..n]
  {
    assert acc + xs == (acc + xs[..n]) + xs[n..] by {
      assert xs == xs[..n] + xs[n..];
    }
    NoDupAppend(acc + xs[..n], xs[n..]);
    AddAllFresh(acc, xs[..n]);
  }

  /** Adding distinct new elements appends them all, in order. */
  lemma {:induction false} AddAllFresh<T(!new)>(acc: seq<T>, xs: seq<T>)
    requires NoDup(acc + xs)
    ensures AddAll(acc, xs) == acc + xs
    decreases |xs|
  {
    if xs != [] {
      NoDupAppend(acc, xs);
      assert xs[0] !in acc;
      AppendCons(acc, xs);
      AddAllFresh(acc + [xs[0]], xs[1..]);
    }
  }

  /** The index of the first occurrence of `x` in `s`. */
  function First<T(==)>(s: seq<T>, x: T): (i: nat)
    requires x in s
    ensures i < |s| && s[i] == x && x !in s[..i]
  {
    if s[0] == x then 0
    else
      var k := First(s[1..], x);
      assert s[..k + 1] == [s[0]] + s[1..][..k];
      k + 1
  }

  lemma {:induction false} FirstInPrefix<T>(u: seq<T>, v: seq<T>, x: T)
    requires x in u
    ensures First(u + v, x) == First(u, x)
  {
    var i := First(u, x);
    var j := First(u + v, x);
    assert (u + v)[i] == x;
    assert u[..i] == (u + v)[..i];
  }

  lemma {:induction false} FirstInSuffix<T>(u: seq<T>, v: seq<T>, x: T)
    requires x !in u && x in v
    ensures First(u + v, x) == |u| + First(v, x)
  {
    var i := First(v, x);
    var j := First(u + v, x);
    assert (u + v)[|u| + i] == x;
    assert (u + v)[..|u| + i] == u + v[..i];
  }

  /** Dropping a later duplicate of an element of `u` does not change the
      order of first occurrences. */
  lemma FirstDropDuplicate<T>(u: seq<T>, e: T, v: seq<T>, x: T, y: T)
    requires e in u
    requires x in u + v && y in u + v
    ensures First(u + [e] + v, x) < First(u + [e] + v, y) <==> First(u + v, x) < First(u + v, y)
  {
    assert u + [e] + v == u + ([e] + v);
    forall z | z in u + v ensures
      && (z in u ==> First(u + [e] + v, z) == First(u + v, z) == First(u, z))
      && (z !in u ==>
            && First(u + [e] + v, z) == |u| + 1 + First(v, z)
            && First(u + v, z) == |u| + First(v, z))
    {
      if z in u {
        FirstInPrefix(u, [e] + v, z);
        FirstInPrefix(u, v, z);
      } else {
        assert z in v;
        FirstInSuffix(u, [e] + v, z);
        FirstInSuffix([e], v, z);
        FirstInSuffix(u, v, z);
      }
    }
  }

  /** `AddAll` lists its elements in the order of their first occurrence
      in `acc + xs`. */
  lemma {:induction false} AddAllFirstSeenOrder<T(!new)>(acc: seq<T>, xs: seq<T>, i: int, j: int)
    requires NoDup(acc)
    requires 0 <= i < j < |AddAll(acc, xs)|
    ensures AddAll(acc, xs)[i] in acc + xs && AddAll(acc, xs)[j] in acc + xs
    ensures First(acc + xs, AddAll(acc, xs)[i]) < First(acc + xs, AddAll(acc, xs)[j])
    decreases |xs|
  {
    if xs == [] {
      assert acc + xs == acc;
      FirstNoDup(acc, i);
      FirstNoDup(acc, j);
    } else {
      var e := xs[0];
      var acc' := Add(acc, e);
      assert NoDup(acc');
      AddAllFirstSeenOrder(acc', xs[1..], i, j);
      StepOrder(acc, e, xs[1..], AddAll(acc', xs[1..])[i], AddAll(acc', xs[1..])[j]);
      AppendHead(acc, xs);
    }
  }

  /** Starting from the empty list, `AddAll` lists the distinct elements
      of `xs` in the order of their first occurrence in `xs`. */
  lemma FirstSeenOrder<T(!new)>(xs: seq<T>, i: int, j: int)
    requires 0 <= i < j < |AddAll([], xs)|
    ensures AddAll([], xs)[i] in xs && AddAll([], xs)[j] in xs
    ensures First(xs, AddAll([], xs)[i]) < First(xs, AddAll([], xs)[j])
  {
    AddAllFirstSeenOrder([], xs, i, j);
    assert [] + xs == xs;
  }

  lemma AppendHead<T>(acc: seq<T>, xs: seq<T>)
    requires xs != []
    ensures acc + xs == acc + [xs[0]] + xs[1..]
  {
    assert xs == [xs[0]] + xs[1..];
  }

  /** One step of `AddAll` keeps the order of first occurrences. */
  lemma StepOrder<T>(acc: seq<T>, e: T, rest: seq<T>, x: T, y: T)
    requires x in Add(acc, e) + rest && y in Add(acc, e) + rest
    requires First(Add(acc, e) + rest, x) < First(Add(acc, e) + rest, y)
    ensures x in acc + [e] + rest && y in acc + [e] + rest
    ensures First(acc + [e] + rest, x) < First(acc + [e] + rest, y)
  {
    if e in acc {
      FirstDropDuplicate(acc, e, rest, x, y);
    }
  }

  lemma FirstNoDup<T>(s: seq<T>, i: int)
    requires NoDup(s) && 0 <= i < |s|
    ensures First(s, s[i]) == i
  {
    var k := First(s, s[i]);
  }

  /** Adding the elements of `xs + ys` is adding those of `xs`, then those
      of `ys`. */
  lemma {:induction false} AddAllAppend<T(!new)>(acc: seq<T>, xs: seq<T>, ys: seq<T>)
    ensures AddAll(acc, xs + ys) == AddAll(AddAll(acc, xs), ys)
    decreases |xs|
  {
    if xs != [] {
      assert (xs + ys)[0] == xs[0] && (xs + ys)[1..] == xs[1..] + ys;
      AddAllAppend(Add(acc, xs[0]), xs[1..], ys);
    } else {
      assert xs + ys == ys;
    }
  }

  /** Adding the first `k` elements of `xs` ends with adding the `k`-th. */
  lemma AddAllTake<T(!new)>(xs: seq<T>, k: int)
    requires 0 < k <= |xs|
    ensures AddAll([], xs[..k]) == Add(AddAll([], xs[..k - 1]), xs[k - 1])
  {
    assert xs[..k] == xs[..k - 1] + [xs[k - 1]];
    AddAllSnoc([], xs[..k - 1], xs[k - 1]);
  }

  /** Adding the elements of `xs + [x]` ends with adding `x`. */
  lemma AddAllSnoc<T(!new)>(acc: seq<T>, xs: seq<T>, x: T)
    ensures AddAll(acc, xs + [x]) == Add(AddAll(acc, xs), x)
  {
    AddAllAppend(acc, xs, [x]);
    var a := AddAll(acc, xs);
    assert AddAll(a, [x]) == AddAll(Add(a, x), []);
  }
}
