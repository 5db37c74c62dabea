/**
 A JavaScript `Map`: entries in insertion order, one per key. Setting a present key
 replaces its value in place; setting an absent key appends.
 */
module OrderedMap {
  import opened Wrappers
  import opened Seqs

  type Entries<K, V> = seq<(K, V)>

  function Keys<K, V>(m: Entries<K, V>): seq<K> {
    seq(|m|, i requires 0 <= i < |m| => m[i].0)
  }

  function Values<K, V>(m: Entries<K, V>): seq<V> {
    seq(|m|, i requires 0 <= i < |m| => m[i].1)
  }

  ghost predicate Distinct<T>(xs: seq<T>) {
    forall i, j :: 0 <= i < j < |xs| ==> xs[i] != xs[j]
  }

  function Get<K(==), V>(m: Entries<K, V>, k: K): (r: Option<V>)
    ensures r.Some? <==> k in Keys(m)
    ensures r.Some? ==> (k, r.value) in m
  {
    if m == [] then None
    else if m[0].0 == k then
      assert k == Keys(m)[0];
      Some(m[0].1)
    else
      var r := Get(m[1..], k);
      assert Keys(m) == [m[0].0] + Keys(m[1..]);
      r
  }

  function Put<K(==), V>(m: Entries<K, V>, k: K, v: V): (r: Entries<K, V>)
    ensures k in Keys(m) ==> Keys(r) == Keys(m)
    ensures k !in Keys(m) ==> r == m + [(k, v)]
  {
    if m == [] then [(k, v)]
    else
      assert Keys(m) == [m[0].0] + Keys(m[1..]);
      if m[0].0 == k then
        assert k == Keys(m)[0];
        assert Keys([(k, v)] + m[1..]) == Keys(m);
        [(k, v)] + m[1..]
      else
        var r := [m[0]] + Put(m[1..], k, v);
        assert Keys(r) == [m[0].0] + Keys(Put(m[1..], k, v));
        r
  }

  lemma {:induction false} GetPut<K, V>(m: Entries<K, V>, k: K, v: V, k': K)
    ensures Get(Put(m, k, v), k') == if k' == k then Some(v) else Get(m, k')
  {
    if m != [] && m[0].0 != k {
      GetPut(m[1..], k, v, k');
      assert Put(m, k, v)[1..] == Put(m[1..], k, v);
    } else if m != [] {
      assert Put(m, k, v)[1..] == m[1..];
    } else {
      assert Put(m, k, v)[1..] == [];
    }
  }

  lemma {:induction false} PutEntries<K, V>(m: Entries<K, V>, k: K, v: V)
    ensures forall e :: e in Put(m, k, v) ==> e == (k, v) || e in m
  {
    if m != [] {
      PutEntries(m[1..], k, v);
    }
  }

  lemma {:induction false} KeysOfPut<K, V>(m: Entries<K, V>, k: K, v: V)
    ensures forall x :: x in Keys(Put(m, k, v)) <==> x in Keys(m) || x == k
    ensures Distinct(Keys(m)) ==> Distinct(Keys(Put(m, k, v)))
  {
    if k !in Keys(m) {
      assert Keys(m + [(k, v)]) == Keys(m) + [k];
    }
  }

  lemma EntryWithKey<K, V>(m: Entries<K, V>, k: K) returns (e: (K, V))
    requires k in Keys(m)
    ensures e in m && e.0 == k
  {
    var i :| 0 <= i < |m| && Keys(m)[i] == k;
    e := m[i];
  }

  lemma InValues<K, V>(m: Entries<K, V>, v: V)
    ensures v in Values(m) <==> exists e :: e in m && e.1 == v
  {
    if v in Values(m) {
      var i :| 0 <= i < |m| && Values(m)[i] == v;
      assert m[i] in m;
    }
    if e :| e in m && e.1 == v {
      var i :| 0 <= i < |m| && m[i] == e;
      assert Values(m)[i] == v;
    }
  }

  lemma {:induction false} GetOfEntry<K, V>(m: Entries<K, V>, i: nat)
    requires Distinct(Keys(m)) && i < |m|
    ensures Get(m, m[i].0) == Some(m[i].1)
  {
    if i > 0 {
      assert Keys(m)[0] != Keys(m)[i];
      assert Keys(m) == [m[0].0] + Keys(m[1..]);
      assert forall j :: 0 <= j < |m| - 1 ==> Keys(m[1..])[j] == Keys(m)[j + 1];
      GetOfEntry(m[1..], i - 1);
    }
  }

  lemma {:induction false} EntryOfPut<K, V>(m: Entries<K, V>, k: K, v: V, e: (K, V))
    requires Distinct(Keys(m))
    ensures e in Put(m, k, v) <==> e == (k, v) || (e in m && e.0 != k)
  {
    var r := Put(m, k, v);
    KeysOfPut(m, k, v);
    GetPut(m, k, v, e.0);
    if e in r {
      var i :| 0 <= i < |r| && r[i] == e;
      GetOfEntry(r, i);
    }
    if e in m {
      var i :| 0 <= i < |m| && m[i] == e;
      GetOfEntry(m, i);
    }
  }

  // ------------------------------------------------------------ filling a map from a list

  /** for (const v of vs) m.set(key(v), v) */
  function PutAll<K(==), V>(key: V -> K, vs: seq<V>): Entries<K, V> {
    if vs == [] then [] else Put(PutAll(key, vs[..|vs| - 1]), key(vs[|vs| - 1]), vs[|vs| - 1])
  }

  lemma {:induction false} PutAllAppend<K, V>(key: V -> K, vs: seq<V>, v: V)
    ensures PutAll(key, vs + [v]) == Put(PutAll(key, vs), key(v), v)
  {
    assert (vs + [v])[..|vs|] == vs;
  }

  /** Carries a map filled from `done` on through vs. */
  method PutEach<K(==), V>(m: Entries<K, V>, key: V -> K, vs: seq<V>, ghost done: seq<V>) returns (out: Entries<K, V>)
    requires m == PutAll(key, done)
    ensures out == PutAll(key, done + vs)
  {
    out := m;
    ghost var put := done;
    for i := 0 to |vs|
      invariant out == PutAll(key, put) && put == done + vs[..i]
    {
      PutAllAppend(key, put, vs[i]);
      out := Put(out, key(vs[i]), vs[i]);
      TakeNext(done, vs, i);
      put := put + [vs[i]];
    }
    assert vs[..|vs|] == vs;
  }

  lemma {:induction false} PutAllEntries<K, V>(key: V -> K, vs: seq<V>)
    ensures forall e :: e in PutAll(key, vs) ==> e.0 == key(e.1) && e.1 in vs
  {
    if vs != [] {
      var before, v := vs[..|vs| - 1], vs[|vs| - 1];
      PutAllEntries(key, before);
      PutEntries(PutAll(key, before), key(v), v);
    }
  }

  lemma {:induction false} PutAllKeys<K, V>(key: V -> K, vs: seq<V>)
    ensures forall k :: k in Keys(PutAll(key, vs)) <==> k in Map(key, vs)
    ensures Distinct(Keys(PutAll(key, vs)))
  {
    if vs != [] {
      var before, v := vs[..|vs| - 1], vs[|vs| - 1];
      PutAllKeys(key, before);
      KeysOfPut(PutAll(key, before), key(v), v);
      assert Map(key, vs) == Map(key, before) + [key(v)];
    }
  }

  lemma {:induction false} PutLength<K, V>(m: Entries<K, V>, k: K, v: V)
    ensures |Put(m, k, v)| == |m| + if k in Keys(m) then 0 else 1
    ensures k !in Keys(m) ==> Values(Put(m, k, v)) == Values(m) + [v]
  {
    assert |Keys(m)| == |m| && |Keys(Put(m, k, v))| == |Put(m, k, v)|;
  }

  lemma PutAllHas<K, V>(key: V -> K, vs: seq<V>, k: K)
    ensures k in Keys(PutAll(key, vs)) <==> k in Map(key, vs)
  {
    PutAllKeys(key, vs);
  }

  lemma {:induction false} PutAllLength<K, V>(key: V -> K, vs: seq<V>)
    ensures |PutAll(key, vs)| <= |vs|
    ensures |PutAll(key, vs)| == |vs| <==> Distinct(Map(key, vs))
  {
    if vs != [] {
      var before, v := vs[..|vs| - 1], vs[|vs| - 1];
      PutAllLength(key, before);
      PutAllHas(key, before, key(v));
      PutLength(PutAll(key, before), key(v), v);
      DistinctAppend(Map(key, before), key(v));
      assert Map(key, vs) == Map(key, before) + [key(v)];
    }
  }

  lemma {:induction false} PutAllValues<K, V>(key: V -> K, vs: seq<V>)
    requires |PutAll(key, vs)| == |vs|
    ensures Values(PutAll(key, vs)) == vs
  {
    if vs != [] {
      var before, v := vs[..|vs| - 1], vs[|vs| - 1];
      PutAllLength(key, before);
      PutLength(PutAll(key, before), key(v), v);
      PutAllValues(key, before);
      assert before + [v] == vs;
    }
  }

  /** The map holds the whole list, in order, exactly when no key repeats. */
  lemma {:induction false} PutAllWholeIff<K, V>(key: V -> K, vs: seq<V>)
    ensures |PutAll(key, vs)| <= |vs|
    ensures |PutAll(key, vs)| == |vs| <==> Distinct(Map(key, vs))
    ensures |PutAll(key, vs)| == |vs| ==> Values(PutAll(key, vs)) == vs
  {
    PutAllLength(key, vs);
    if |PutAll(key, vs)| == |vs| { PutAllValues(key, vs); }
  }

  lemma DistinctAppend<T>(xs: seq<T>, x: T)
    ensures Distinct(xs + [x]) <==> Distinct(xs) && x !in xs
  {
    if Distinct(xs + [x]) {
      assert forall i :: 0 <= i < |xs| ==> (xs + [x])[i] == xs[i] && (xs + [x])[i] != (xs + [x])[|xs|];
    }
  }

  function Only<K(!new), V(!new)>(keep: V -> bool, m: Entries<K, V>): Entries<K, V> {
    Filter((e: (K, V)) => keep(e.1), m)
  }

  lemma {:induction false} OnlyPut<K(!new), V(!new)>(keep: V -> bool, m: Entries<K, V>, k: K, v: V)
    requires forall e :: e in m && e.0 == k ==> keep(e.1) == keep(v)
    ensures Only(keep, Put(m, k, v)) == if keep(v) then Put(Only(keep, m), k, v) else Only(keep, m)
  {
    if m == [] {
      assert [(k, v)][1..] == [];
    } else {
      var e, rest := m[0], m[1..];
      OnlyPut(keep, rest, k, v);
      FilterCons((x: (K, V)) => keep(x.1), e, rest);
      if e.0 == k {
        assert e in m;
        FilterCons((x: (K, V)) => keep(x.1), (k, v), rest);
      } else {
        FilterCons((x: (K, V)) => keep(x.1), e, Put(rest, k, v));
      }
    }
  }

  /** Rows of one kind can be looked at alone when no key is shared with another kind. */
  lemma {:induction false} OnlyPutAll<K(!new), V(!new)>(key: V -> K, keep: V -> bool, vs: seq<V>)
    requires forall a, b :: a in vs && b in vs && key(a) == key(b) ==> keep(a) == keep(b)
    ensures Only(keep, PutAll(key, vs)) == PutAll(key, Filter(keep, vs))
  {
    if vs != [] {
      var before, v := vs[..|vs| - 1], vs[|vs| - 1];
      assert vs == before + [v];
      OnlyPutAll(key, keep, before);
      PutAllEntries(key, before);
      OnlyPut(keep, PutAll(key, before), key(v), v);
      FilterAppend(keep, before, [v]);
      PutAllAppend(key, Filter(keep, before), v);
      FilterOne(keep, v);
      assert Filter(keep, before) + [] == Filter(keep, before);
    }
  }

  lemma FilterOne<T(!new)>(p: T -> bool, x: T)
    ensures Filter(p, [x]) == if p(x) then [x] else []
  {
    assert [x][1..] == [];
  }

  lemma {:induction false} ValuesOnly<K(!new), V(!new)>(keep: V -> bool, m: Entries<K, V>)
    ensures Values(Only(keep, m)) == Filter(keep, Values(m))
  {
    if m != [] {
      ValuesOnly(keep, m[1..]);
      assert Values(m) == [m[0].1] + Values(m[1..]);
    }
  }

  lemma DistinctConcat<T>(xs: seq<T>, ys: seq<T>)
    requires Distinct(xs) && Distinct(ys) && forall x :: x in xs ==> x !in ys
    ensures Distinct(xs + ys)
  {
    forall i, j | 0 <= i < j < |xs + ys| ensures (xs + ys)[i] != (xs + ys)[j] {
      if i < |xs| <= j { assert xs[i] in xs && ys[j - |xs|] in ys; }
    }
  }

  lemma FirstKey<K, V>(m: Entries<K, V>)
    requires m != [] && Distinct(Keys(m))
    ensures Keys(m) == [m[0].0] + Keys(m[1..]) && Values(m) == [m[0].1] + Values(m[1..])
    ensures m[0].0 !in Keys(m[1..]) && Distinct(Keys(m[1..]))
  {
    assert forall i :: 0 <= i < |m| - 1 ==> Keys(m[1..])[i] == Keys(m)[i + 1] && Keys(m)[0] != Keys(m)[i + 1];
  }

  /** Writing at most one thing per entry, under the entry's key, writes no key twice. */
  lemma {:induction false} DistinctFlatMap<K, V, U(!new)>(f: V -> seq<U>, name: U -> K, m: Entries<K, V>)
    requires Distinct(Keys(m)) && forall e :: e in m ==> |f(e.1)| <= 1 && forall u :: u in f(e.1) ==> name(u) == e.0
    ensures Distinct(Map(name, FlatMap(f, Values(m))))
    ensures forall x :: x in Map(name, FlatMap(f, Values(m))) ==> x in Keys(m)
  {
    if m != [] {
      FirstKey(m);
      DistinctFlatMap(f, name, m[1..]);
      assert m[0] in m;
      var own, others := f(m[0].1), FlatMap(f, Values(m[1..]));
      assert FlatMap(f, Values(m)) == own + others;
      assert Map(name, own + others) == Map(name, own) + Map(name, others);
      assert forall x :: x in Map(name, own) ==> x == m[0].0;
      DistinctConcat(Map(name, own), Map(name, others));
    }
  }

  // ------------------------------------------------------------ grouping

  /** for (const x of xs) { if (!m.has(key(x))) m.set(key(x), []); m.get(key(x)).push(val(x)) } */
  function GroupBy<T, K(==), V>(key: T -> K, val: T -> V, xs: seq<T>): Entries<K, seq<V>> {
    if xs == [] then [] else AddTo(GroupBy(key, val, xs[..|xs| - 1]), key(xs[|xs| - 1]), val(xs[|xs| - 1]))
  }

  function AddTo<K(==), V>(m: Entries<K, seq<V>>, k: K, v: V): Entries<K, seq<V>> {
    Put(m, k, Get(m, k).GetOr([]) + [v])
  }

  method Group<T, K(==), V>(key: T -> K, val: T -> V, xs: seq<T>) returns (m: Entries<K, seq<V>>)
    ensures m == GroupBy(key, val, xs)
  {
    m := [];
    for i := 0 to |xs|
      invariant m == GroupBy(key, val, xs[..i])
    {
      assert xs[..i + 1][..i] == xs[..i];
      m := AddTo(m, key(xs[i]), val(xs[i]));
    }
    assert xs[..|xs|] == xs;
  }

  /** The items of one group, in their order. */
  function Members<T, K(==), V>(key: T -> K, val: T -> V, xs: seq<T>, k: K): seq<V> {
    if xs == [] then []
    else Members(key, val, xs[..|xs| - 1], k) + if key(xs[|xs| - 1]) == k then [val(xs[|xs| - 1])] else []
  }

  /** The keys in order of first appearance. */
  function FirstSeen<K(==)>(ks: seq<K>): seq<K> {
    if ks == [] then []
    else
      var before := FirstSeen(ks[..|ks| - 1]);
      if ks[|ks| - 1] in before then before else before + [ks[|ks| - 1]]
  }

  lemma {:induction false} AddToSpec<K, V>(m: Entries<K, seq<V>>, k: K, v: V, k': K)
    requires Distinct(Keys(m))
    ensures Get(AddTo(m, k, v), k').GetOr([]) == Get(m, k').GetOr([]) + if k == k' then [v] else []
    ensures Keys(AddTo(m, k, v)) == if k in Keys(m) then Keys(m) else Keys(m) + [k]
    ensures Distinct(Keys(AddTo(m, k, v)))
  {
    GetPut(m, k, Get(m, k).GetOr([]) + [v], k');
    KeysOfPut(m, k, Get(m, k).GetOr([]) + [v]);
  }

  lemma {:induction false} GroupByMembers<T, K, V>(key: T -> K, val: T -> V, xs: seq<T>, k: K)
    ensures Get(GroupBy(key, val, xs), k).GetOr([]) == Members(key, val, xs, k)
    ensures Distinct(Keys(GroupBy(key, val, xs)))
  {
    if xs != [] {
      var before, x := xs[..|xs| - 1], xs[|xs| - 1];
      GroupByMembers(key, val, before, k);
      AddToSpec(GroupBy(key, val, before), key(x), val(x), k);
    }
  }

  lemma {:induction false} FirstSeenNext<K>(ks: seq<K>, k: K)
    ensures FirstSeen(ks + [k]) == if k in FirstSeen(ks) then FirstSeen(ks) else FirstSeen(ks) + [k]
  {
    assert (ks + [k])[..|ks|] == ks;
  }

  lemma KeysNext<K, V>(m: Entries<K, seq<V>>, ks: seq<K>, k: K, v: V)
    requires Distinct(Keys(m)) && Keys(m) == FirstSeen(ks)
    ensures Keys(AddTo(m, k, v)) == FirstSeen(ks + [k])
  {
    AddToSpec(m, k, v, k);
    FirstSeenNext(ks, k);
  }

  lemma {:induction false} GroupByDistinct<T, K, V>(key: T -> K, val: T -> V, xs: seq<T>)
    ensures Distinct(Keys(GroupBy(key, val, xs)))
  {
    if xs != [] { GroupByMembers(key, val, xs, key(xs[0])); }
  }

  lemma {:induction false} GroupByKeys<T, K, V>(key: T -> K, val: T -> V, xs: seq<T>)
    ensures Keys(GroupBy(key, val, xs)) == FirstSeen(Map(key, xs))
  {
    if xs != [] {
      var before, x := xs[..|xs| - 1], xs[|xs| - 1];
      GroupByKeys(key, val, before);
      GroupByDistinct(key, val, before);
      KeysNext(GroupBy(key, val, before), Map(key, before), key(x), val(x));
      assert Map(key, xs) == Map(key, before) + [key(x)];
    }
  }

  lemma {:induction false} MembersAppend<T, K, V>(key: T -> K, val: T -> V, xs: seq<T>, ys: seq<T>, k: K)
    ensures Members(key, val, xs + ys, k) == Members(key, val, xs, k) + Members(key, val, ys, k)
  {
    if ys == [] {
      assert xs + ys == xs;
    } else {
      MembersAppend(key, val, xs, ys[..|ys| - 1], k);
      assert (xs + ys)[..|xs + ys| - 1] == xs + ys[..|ys| - 1];
    }
  }

  /** Items that all have one key are one group, or nothing. */
  lemma {:induction false} MembersOfOne<T, K, V>(key: T -> K, val: T -> V, xs: seq<T>, own: K, k: K)
    requires forall x :: x in xs ==> key(x) == own
    ensures Members(key, val, xs, k) == if own == k then Map(val, xs) else []
  {
    if xs != [] {
      MembersOfOne(key, val, xs[..|xs| - 1], own, k);
      assert xs[|xs| - 1] in xs;
      assert Map(val, xs) == Map(val, xs[..|xs| - 1]) + [val(xs[|xs| - 1])];
    }
  }
}
