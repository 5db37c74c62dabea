/** Array.filter, Array.map and Array.flatMap, and what they keep. */
module Seqs {
  import opened Wrappers

  function Filter<T(!new)>(p: T -> bool, xs: seq<T>): (r: seq<T>)
    ensures forall x :: x in r <==> x in xs && p(x)
    ensures |r| <= |xs|
  {
    if xs == [] then []
    else
      var r := Filter(p, xs[1..]);
      if p(xs[0]) then [xs[0]] + r else r
  }

  function Map<T, U>(f: T -> U, xs: seq<T>): (r: seq<U>)
    ensures |r| == |xs|
    ensures forall i :: 0 <= i < |xs| ==> r[i] == f(xs[i])
  {
    seq(|xs|, i requires 0 <= i < |xs| => f(xs[i]))
  }

  function FlatMap<T, U>(f: T -> seq<U>, xs: seq<T>): seq<U> {
    if xs == [] then [] else f(xs[0]) + FlatMap(f, xs[1..])
  }

  lemma TakeNext<T>(done: seq<T>, xs: seq<T>, i: nat)
    requires i < |xs|
    ensures done + xs[..i + 1] == done + xs[..i] + [xs[i]]
  {
  }

  /** The tail of a longer prefix. */
  lemma TailNext<T>(xs: seq<T>, k: nat)
    requires 0 < k < |xs|
    ensures xs[..k + 1][1..] == xs[..k][1..] + [xs[k]]
  {
  }

  lemma {:induction false} FilterAppend<T(!new)>(p: T -> bool, xs: seq<T>, ys: seq<T>)
    ensures Filter(p, xs + ys) == Filter(p, xs) + Filter(p, ys)
  {
    if xs == [] {
      assert xs + ys == ys;
    } else {
      assert (xs + ys)[1..] == xs[1..] + ys;
      FilterAppend(p, xs[1..], ys);
    }
  }

  lemma {:induction false} FlatMapAppend<T, U>(f: T -> seq<U>, xs: seq<T>, ys: seq<T>)
    ensures FlatMap(f, xs + ys) == FlatMap(f, xs) + FlatMap(f, ys)
  {
    if xs == [] {
      assert xs + ys == ys;
    } else {
      assert (xs + ys)[1..] == xs[1..] + ys;
      FlatMapAppend(f, xs[1..], ys);
    }
  }

  lemma FlatMapNext<T, U>(f: T -> seq<U>, xs: seq<T>, i: nat)
    requires i < |xs|
    ensures FlatMap(f, xs[..i + 1]) == FlatMap(f, xs[..i]) + f(xs[i])
  {
    assert xs[..i + 1] == xs[..i] + [xs[i]];
    FlatMapAppend(f, xs[..i], [xs[i]]);
    assert FlatMap(f, [xs[i]][1..]) == [];
  }

  lemma {:induction false} FlatMapIn<T, U>(f: T -> seq<U>, xs: seq<T>, x: T)
    requires x in xs
    ensures forall u :: u in f(x) ==> u in FlatMap(f, xs)
  {
    if xs[0] != x { FlatMapIn(f, xs[1..], x); }
  }

  lemma {:induction false} InFlatMap<T(!new), U>(f: T -> seq<U>, xs: seq<T>, u: U)
    ensures u in FlatMap(f, xs) <==> exists x :: x in xs && u in f(x)
  {
    if xs != [] {
      InFlatMap(f, xs[1..], u);
      assert forall x :: x in xs <==> x == xs[0] || x in xs[1..];
    }
  }

  lemma {:induction false} FilterAll<T(!new)>(p: T -> bool, xs: seq<T>)
    requires forall x :: x in xs ==> p(x)
    ensures Filter(p, xs) == xs
  {
    if xs != [] {
      FilterAll(p, xs[1..]);
    }
  }

  lemma {:induction false} FilterNone<T(!new)>(p: T -> bool, xs: seq<T>)
    requires forall x :: x in xs ==> !p(x)
    ensures Filter(p, xs) == []
  {
    if xs != [] {
      FilterNone(p, xs[1..]);
    }
  }

  lemma {:induction false} FilterAlike<T(!new)>(p: T -> bool, q: T -> bool, xs: seq<T>)
    requires forall x :: p(x) <==> q(x)
    ensures Filter(p, xs) == Filter(q, xs)
  {
    if xs != [] { FilterAlike(p, q, xs[1..]); }
  }

  lemma {:induction false} FilterShort<T(!new)>(p: T -> bool, xs: seq<T>)
    ensures |Filter(p, xs)| == |xs| ==> Filter(p, xs) == xs
  {
    if xs != [] {
      FilterShort(p, xs[1..]);
    }
  }

  lemma MapCons<T, U>(f: T -> U, x: T, xs: seq<T>)
    ensures Map(f, [x] + xs) == [f(x)] + Map(f, xs)
  {
  }

  lemma MapAppend<T, U>(f: T -> U, xs: seq<T>, ys: seq<T>)
    ensures Map(f, xs + ys) == Map(f, xs) + Map(f, ys)
  {
  }

  lemma {:induction false} FilterCons<T(!new)>(p: T -> bool, x: T, xs: seq<T>)
    ensures Filter(p, [x] + xs) == if p(x) then [x] + Filter(p, xs) else Filter(p, xs)
  {
    assert ([x] + xs)[1..] == xs;
  }

  lemma {:induction false} FilterMap<T(!new), U(!new)>(f: T -> U, q: U -> bool, s: T -> bool, xs: seq<T>)
    requires forall x :: s(x) <==> q(f(x))
    ensures Filter(q, Map(f, xs)) == Map(f, Filter(s, xs))
  {
    if xs != [] {
      var x, rest := xs[0], xs[1..];
      assert xs == [x] + rest;
      FilterMap(f, q, s, rest);
      MapCons(f, x, rest);
      FilterCons(q, f(x), Map(f, rest));
      FilterCons(s, x, rest);
      MapCons(f, x, Filter(s, rest));
    }
  }

  lemma {:induction false} FilterFilter<T(!new)>(p: T -> bool, s: T -> bool, r: T -> bool, xs: seq<T>)
    requires forall x :: r(x) <==> p(x) && s(x)
    ensures Filter(s, Filter(p, xs)) == Filter(r, xs)
  {
    if xs != [] {
      FilterFilter(p, s, r, xs[1..]);
      var others := Filter(p, xs[1..]);
      assert ([xs[0]] + others)[1..] == others;
    }
  }

  /**
   A list written by pushing at most one item for each x is ys exactly when each x pushes the ys item in
   its place.
   */
  lemma {:induction false} OneForEach<T(!new), U>(f: T -> Option<U>, g: T -> seq<U>, xs: seq<T>, ys: seq<U>)
    requires |xs| == |ys| && forall x :: g(x) == if f(x).Some? then [f(x).value] else []
    ensures |FlatMap(g, xs)| <= |xs|
    ensures FlatMap(g, xs) == ys <==> forall i :: 0 <= i < |xs| ==> f(xs[i]) == Some(ys[i])
  {
    if xs != [] {
      OneForEach(f, g, xs[1..], ys[1..]);
      assert FlatMap(g, xs) == g(xs[0]) + FlatMap(g, xs[1..]);
      if FlatMap(g, xs) == ys {
        assert |g(xs[0])| == 1;
        assert FlatMap(g, xs[1..]) == ys[1..];
      }
      if forall i :: 0 <= i < |xs| ==> f(xs[i]) == Some(ys[i]) {
        assert forall i :: 0 <= i < |xs| - 1 ==> f(xs[1..][i]) == Some(ys[1..][i]);
      }
    }
  }

  /** const out = []; for (const x of xs) out.push(...f(x)) */
  method PushAll<T, U>(f: T -> seq<U>, xs: seq<T>) returns (out: seq<U>)
    ensures out == FlatMap(f, xs)
  {
    out := [];
    for i := 0 to |xs|
      invariant out == FlatMap(f, xs[..i])
    {
      assert xs[..i + 1] == xs[..i] + [xs[i]];
      FlatMapAppend(f, xs[..i], [xs[i]]);
      assert [xs[i]][1..] == [];
      out := out + f(xs[i]);
    }
    assert xs[..|xs|] == xs;
  }
}
