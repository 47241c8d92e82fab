/** Small facts about sequence slices, stated once for any element type so
    that proofs about records never have to unfold them, and the
    `map`/`filter` shapes the components use. */
module Seqs {
  import opened Wrappers

  lemma TakeSnoc<T>(s: seq<T>, i: int)
    requires 0 <= i < |s|
    ensures s[..i + 1] == s[..i] + [s[i]]
  {
  }

  lemma AppendTakeSnoc<T>(a: seq<T>, s: seq<T>, i: int)
    requires 0 <= i < |s|
    ensures a + s[..i + 1] == (a + s[..i]) + [s[i]]
  {
    assert s[..i + 1] == s[..i] + [s[i]];
  }

  lemma TailAt<T>(s: seq<T>, i: int)
    requires 0 < i < |s|
    ensures s[1..][i - 1] == s[i]
  {
  }

  lemma SliceSnoc<T>(s: seq<T>, a: int, b: int)
    requires 0 <= a <= b < |s|
    ensures s[a..b + 1][..b - a] == s[a..b] && s[a..b + 1][b - a] == s[b]
  {
  }

  lemma TakeCons<T>(s: seq<T>, n: int)
    requires 0 < n <= |s|
    ensures s[..n] == [s[0]] + s[1..][..n - 1]
  {
  }

  lemma AppendCons<T>(a: seq<T>, s: seq<T>)
    requires s != []
    ensures (a + [s[0]]) + s[1..] == a + s
  {
    assert s == [s[0]] + s[1..];
  }

  /** `xs.map(f)`. */
  function Map<A, B>(xs: seq<A>, f: A -> B): (ys: seq<B>)
    ensures |ys| == |xs|
    ensures forall i :: 0 <= i < |xs| ==> ys[i] == f(xs[i])
  {
    seq(|xs|, i requires 0 <= i < |xs| => f(xs[i]))
  }

  /** The values `vs` (one per element of `xs`) with `v` written where `p`
      holds: a D3 `selection.filter(p).attr(name, v)` over the attribute
      values of the selected nodes. */
  function SetWhere<A, V>(xs: seq<A>, vs: seq<V>, p: A -> bool, v: V): (r: seq<V>)
    requires |vs| == |xs|
    ensures |r| == |xs|
  {
    seq(|xs|, i requires 0 <= i < |xs| => if p(xs[i]) then v else vs[i])
  }

  lemma MapStep<A, B>(xs: seq<A>, f: A -> B, i: int)
    requires 0 <= i < |xs|
    ensures Map(xs[..i + 1], f) == Map(xs[..i], f) + [f(xs[i])]
  {
  }

  /** The values `f` gives for the elements of `xs` on which it gives one,
      in order: what a loop pushing `f(x)` for the accepted `x` builds. */
  function FilterMap<A, B>(xs: seq<A>, f: A -> Option<B>): seq<B> {
    if xs == [] then []
    else
      var last := f(xs[|xs| - 1]);
      FilterMap(xs[..|xs| - 1], f) + (if last.Some? then [last.value] else [])
  }

  lemma FilterMapStep<A, B>(xs: seq<A>, f: A -> Option<B>, i: int)
    requires 0 <= i < |xs|
    ensures FilterMap(xs[..i + 1], f) ==
      FilterMap(xs[..i], f) + (if f(xs[i]).Some? then [f(xs[i]).value] else [])
  {
    assert xs[..i + 1][..i] == xs[..i];
  }

  /** An element of the result is exactly a value `f` gives for some
      element of `xs`. */
  lemma {:induction false} FilterMapMember<A, B>(xs: seq<A>, f: A -> Option<B>, y: B)
    ensures y in FilterMap(xs, f) <==> exists i :: 0 <= i < |xs| && f(xs[i]) == Some(y)
    decreases |xs|
  {
    if xs != [] {
      var n := |xs| - 1;
      FilterMapMember(xs[..n], f, y);
      if exists i :: 0 <= i < |xs[..n]| && f(xs[..n][i]) == Some(y) {
        var i :| 0 <= i < |xs[..n]| && f(xs[..n][i]) == Some(y);
        assert f(xs[i]) == Some(y);
      }
      if exists i :: 0 <= i < |xs| && f(xs[i]) == Some(y) {
        var i :| 0 <= i < |xs| && f(xs[i]) == Some(y);
        if i < n {
          assert f(xs[..n][i]) == Some(y);
        }
      }
    }
  }

  // ---------------------------------------------------------------
  // A traversal whose step may throw

  /** `xs.forEach(step)` where `g(x)` is the element after the step and
      whether the step completed: the first step that throws keeps what it
      changed and ends the traversal, leaving the later elements as they
      are. */
  function Traverse<T>(xs: seq<T>, g: T -> (T, bool)): (res: (seq<T>, bool))
    ensures |res.0| == |xs|
    decreases |xs|
  {
    if xs == [] then ([], true)
    else
      var y := g(xs[0]);
      if !y.1 then ([y.0] + xs[1..], false)
      else
        var rest := Traverse(xs[1..], g);
        ([y.0] + rest.0, rest.1)
  }

  /** The number of leading steps that complete. */
  function Completed<T>(xs: seq<T>, g: T -> (T, bool)): (n: nat)
    ensures n <= |xs|
    decreases |xs|
  {
    if xs == [] || !g(xs[0]).1 then 0 else 1 + Completed(xs[1..], g)
  }

  /** The traversal completes exactly when every step does; the elements
      up to and including the first failing step are the steps' results,
      the others are untouched. */
  lemma {:induction false} TraverseSpec<T>(xs: seq<T>, g: T -> (T, bool))
    ensures var n := Completed(xs, g);
      && (forall j :: 0 <= j < n ==> g(xs[j]).1)
      && (n < |xs| ==> !g(xs[n]).1)
      && (Traverse(xs, g).1 <==> n == |xs|)
      && (forall j :: 0 <= j < |xs| ==> Traverse(xs, g).0[j] == if j <= n then g(xs[j]).0 else xs[j])
    decreases |xs|
  {
    if xs != [] && g(xs[0]).1 {
      var rest := xs[1..];
      TraverseSpec(rest, g);
      assert forall j :: 1 <= j < |xs| ==> xs[j] == rest[j - 1] && Traverse(xs, g).0[j] == Traverse(rest, g).0[j - 1];
    }
  }

  /** The traversal stopped at `i`, where `ys` holds the first `i` results
      and the remaining original elements: what is left to do. */
  function Resume<T>(ys: seq<T>, i: nat, g: T -> (T, bool)): (seq<T>, bool)
    requires i <= |ys|
  {
    var rest := Traverse(ys[i..], g);
    (ys[..i] + rest.0, rest.1)
  }

  lemma ResumeStart<T>(xs: seq<T>, g: T -> (T, bool))
    ensures Resume(xs, 0, g) == Traverse(xs, g)
  {
    assert xs[0..] == xs;
    assert xs[..0] + Traverse(xs, g).0 == Traverse(xs, g).0;
  }

  /** One step taken in place at `i`. */
  lemma ResumeStep<T>(ys: seq<T>, i: nat, g: T -> (T, bool))
    requires i < |ys|
    ensures !g(ys[i]).1 ==> Resume(ys, i, g) == (ys[i := g(ys[i]).0], false)
    ensures g(ys[i]).1 ==> Resume(ys, i, g) == Resume(ys[i := g(ys[i]).0], i + 1, g)
  {
    var y := g(ys[i]);
    var ys' := ys[i := y.0];
    assert ys[i..] == [ys[i]] + ys[i + 1..];
    assert ys[i + 1..] == ys'[i + 1..];
    assert ys'[..i + 1] == ys[..i] + [y.0];
    assert ys' == ys[..i] + [y.0] + ys[i + 1..];
    var t := Traverse(ys[i..], g);
    if y.1 {
      var rest := Traverse(ys[i + 1..], g);
      assert t == ([y.0] + rest.0, rest.1);
      assert ys[..i] + t.0 == ys'[..i + 1] + rest.0;
    } else {
      assert t == ([y.0] + ys[i + 1..], false);
      assert ys[..i] + t.0 == ys';
    }
  }

  lemma ResumeDone<T>(ys: seq<T>, g: T -> (T, bool))
    ensures Resume(ys, |ys|, g) == (ys, true)
  {
    assert ys[..|ys|] == ys && ys[|ys|..] == [];
    assert ys + [] == ys;
  }

  /** Two sequences that are permutations of each other map to
      permutations of each other. */
  lemma {:induction false} MapMultiset<A, B>(xs: seq<A>, ys: seq<A>, f: A -> B)
    requires multiset(xs) == multiset(ys)
    ensures multiset(Map(xs, f)) == multiset(Map(ys, f))
    decreases |xs|, 1
  {
    if xs != [] {
      MapMultisetStep(xs, ys, f);
    }
  }

  lemma {:induction false} MapMultisetStep<A, B>(xs: seq<A>, ys: seq<A>, f: A -> B)
    requires multiset(xs) == multiset(ys) && xs != []
    ensures multiset(Map(xs, f)) == multiset(Map(ys, f))
    decreases |xs|, 0
  {
    assert xs[0] in multiset(ys);
    var j :| 0 <= j < |ys| && ys[j] == xs[0];
    RemoveAt(ys, j);
    assert multiset(xs[1..]) == multiset(xs) - multiset{xs[0]} by {
      assert xs == [xs[0]] + xs[1..];
    }
    MapMultiset(xs[1..], ys[..j] + ys[j + 1..], f);
    MapMultisetNext(xs, ys, j, f);
  }

  lemma MapMultisetNext<A, B>(xs: seq<A>, ys: seq<A>, j: int, f: A -> B)
    requires xs != [] && 0 <= j < |ys| && ys[j] == xs[0]
    requires multiset(Map(xs[1..], f)) == multiset(Map(ys[..j] + ys[j + 1..], f))
    ensures multiset(Map(xs, f)) == multiset(Map(ys, f))
  {
    MapRemoveAt(ys, j, f);
    RemoveAt(Map(ys, f), j);
    MapCons(xs, f);
  }

  lemma MapRemoveAt<A, B>(ys: seq<A>, j: int, f: A -> B)
    requires 0 <= j < |ys|
    ensures Map(ys[..j] + ys[j + 1..], f) == Map(ys, f)[..j] + Map(ys, f)[j + 1..]
  {
  }

  lemma MapCons<A, B>(xs: seq<A>, f: A -> B)
    requires xs != []
    ensures multiset(Map(xs, f)) == multiset{f(xs[0])} + multiset(Map(xs[1..], f))
  {
    assert Map(xs, f) == [f(xs[0])] + Map(xs[1..], f);
  }

  lemma RemoveAt<T>(s: seq<T>, j: int)
    requires 0 <= j < |s|
    ensures multiset(s[..j] + s[j + 1..]) == multiset(s) - multiset{s[j]}
  {
    assert s == s[..j] + [s[j]] + s[j + 1..];
  }
}
