/**
 The z-index allocator of floating windows (src/styles/zScale.js). `Renumbered` and
 `Allocate` say what the in-place class below computes.
 */
module ZScale {
  import opened OrderedMap

  const WINDOW_BASE := 60
  const WINDOW_MAX := 99

  /** Item i goes before item j in the stable sort by z. */
  predicate Before(zs: seq<int>, i: nat, j: nat)
    requires i < |zs| && j < |zs|
  {
    zs[i] < zs[j] || (zs[i] == zs[j] && i < j)
  }

  /** How many of the first n items the stable sort puts before item i. */
  function RankUpTo(zs: seq<int>, i: nat, n: nat): (r: nat)
    requires i < |zs| && n <= |zs|
    ensures r <= n
  {
    if n == 0 then 0 else RankUpTo(zs, i, n - 1) + if Before(zs, n - 1, i) then 1 else 0
  }

  function Rank(zs: seq<int>, i: nat): nat
    requires i < |zs|
  {
    RankUpTo(zs, i, |zs|)
  }

  function Renumbered(zs: seq<int>): (r: seq<int>)
    ensures |r| == |zs|
  {
    seq(|zs|, i requires 0 <= i < |zs| => WINDOW_BASE + Rank(zs, i) + 1)
  }

  function MaxZ(zs: seq<int>): (m: int)
    ensures 0 <= m
    ensures forall i :: 0 <= i < |zs| ==> zs[i] <= m
    ensures m == 0 || m in zs
  {
    if zs == [] then 0
    else
      var m := MaxZ(zs[1..]);
      assert forall i :: 1 <= i < |zs| ==> zs[i] == zs[1..][i - 1];
      if zs[0] > m then zs[0] else m
  }

  predicate MustRenumber(next: int, zs: seq<int>) {
    next >= WINDOW_MAX || MaxZ(zs) >= WINDOW_MAX
  }

  datatype Allocation = Allocation(next: int, zs: seq<int>, z: int)

  /** One nextZ call: the new counter, the z of the open items afterwards, the z handed out. */
  function Allocate(next: int, zs: seq<int>): (a: Allocation)
    ensures |a.zs| == |zs|
  {
    if MustRenumber(next, zs)
    then Allocation(WINDOW_BASE + |zs| + 1, Renumbered(zs), WINDOW_BASE + |zs| + 1)
    else Allocation(next + 1, zs, next + 1)
  }

  lemma {:induction false} RankMonotone(zs: seq<int>, i: nat, j: nat, n: nat)
    requires i < |zs| && j < |zs| && n <= |zs| && Before(zs, i, j)
    ensures RankUpTo(zs, i, n) <= RankUpTo(zs, j, n)
    ensures i < n ==> RankUpTo(zs, i, n) < RankUpTo(zs, j, n)
  {
    if n > 0 {
      RankMonotone(zs, i, j, n - 1);
    }
  }

  lemma {:induction false} RankBelow(zs: seq<int>, i: nat, n: nat)
    requires i < n <= |zs|
    ensures RankUpTo(zs, i, n) < n
  {
    if n - 1 > i {
      RankBelow(zs, i, n - 1);
    }
  }

  /** Renumbering keeps the relative order, makes the values distinct and stays in the band. */
  lemma RenumberKeepsOrder(zs: seq<int>)
    ensures forall i, j :: 0 <= i < |zs| && 0 <= j < |zs| && zs[i] < zs[j] ==> Renumbered(zs)[i] < Renumbered(zs)[j]
    ensures forall i, j :: 0 <= i < j < |zs| && zs[i] == zs[j] ==> Renumbered(zs)[i] < Renumbered(zs)[j]
    ensures Distinct(Renumbered(zs))
    ensures forall z :: z in Renumbered(zs) ==> WINDOW_BASE < z <= WINDOW_BASE + |zs|
  {
    forall i, j | 0 <= i < |zs| && 0 <= j < |zs| && Before(zs, i, j)
      ensures Renumbered(zs)[i] < Renumbered(zs)[j]
    {
      RankMonotone(zs, i, j, |zs|);
    }
    forall i, j | 0 <= i < j < |zs| ensures Renumbered(zs)[i] != Renumbered(zs)[j] {
      assert Before(zs, i, j) || Before(zs, j, i);
    }
    forall i | 0 <= i < |zs| ensures Rank(zs, i) < |zs| {
      RankBelow(zs, i, |zs|);
    }
  }

  /**
   When the items are renumbered: the counter has reached 99, or some item has, by an older version or
   otherwise. If not they stay as they are and the counter goes up by one.
   */
  lemma RenumbersIff(next: int, zs: seq<int>)
    ensures
      var a := Allocate(next, zs);
      if next >= 99 || exists i :: 0 <= i < |zs| && zs[i] >= 99
      then a.zs == Renumbered(zs) && a.z == a.next == 60 + |zs| + 1
      else a.zs == zs && a.z == a.next == next + 1
  {
  }

  /** An item outside the band comes back into it: with at most 38 open all items end up to 98. */
  lemma StrayComesBack(next: int, zs: seq<int>)
    requires |zs| <= 38
    ensures forall z :: z in Allocate(next, zs).zs ==> z <= 98
  {
    RenumbersIff(next, zs);
    RenumberKeepsOrder(zs);
  }

  /**
   The open z values other than the one at m (the window being raised, -1 for none) are pairwise
   distinct and bounded by the counter.
   */
  ghost predicate OrderedExcept(next: int, zs: seq<int>, m: int) {
    && (forall i, j :: 0 <= i < j < |zs| && i != m && j != m ==> zs[i] != zs[j])
    && (forall i :: 0 <= i < |zs| && i != m ==> zs[i] <= next)
  }

  /** The z handed out is above every other open item, and the order of the others is untouched. */
  lemma AllocateOnTop(next: int, zs: seq<int>, m: int)
    requires OrderedExcept(next, zs, m)
    ensures var a := Allocate(next, zs);
      && a.z == a.next
      && (forall i :: 0 <= i < |zs| && i != m ==> a.zs[i] < a.z)
      && (forall i, j :: 0 <= i < |zs| && 0 <= j < |zs| && i != m && j != m ==> (zs[i] < zs[j] <==> a.zs[i] < a.zs[j]))
  {
    if MustRenumber(next, zs) {
      RenumberKeepsOrder(zs);
      forall i | 0 <= i < |zs| ensures Renumbered(zs)[i] <= WINDOW_BASE + |zs| {
        assert Renumbered(zs)[i] in Renumbered(zs);
      }
    }
  }

  /** The z stays in the window band exactly when no renumbering happens or at most 38 windows are open. */
  lemma AllocateInBand(next: int, zs: seq<int>)
    ensures Allocate(next, zs).z <= WINDOW_MAX <==> !MustRenumber(next, zs) || |zs| <= WINDOW_MAX - WINDOW_BASE - 1
  {
  }

  // ---------------------------------------------------------------- the class

  /** The numbers below n in stable ascending order of their keys, as the source's sort of a copy gives them. */
  function Sorted(key: int -> int, n: nat): seq<int> {
    if n == 0 then [] else Insert(key, Sorted(key, n - 1), n - 1)
  }

  function Insert(key: int -> int, order: seq<int>, i: int): seq<int> {
    if order == [] || key(i) < key(order[0]) then [i] + order else [order[0]] + Insert(key, order[1..], i)
  }

  predicate Ascending(key: int -> int, order: seq<int>) {
    forall k, l :: 0 <= k < l < |order| ==> Less(key, order[k], order[l])
  }

  predicate Less(key: int -> int, i: int, j: int) { key(i) < key(j) || (key(i) == key(j) && i < j) }

  lemma {:induction false} InsertMembers(key: int -> int, order: seq<int>, i: int)
    ensures |Insert(key, order, i)| == |order| + 1
    ensures forall x :: x in Insert(key, order, i) <==> x == i || x in order
  {
    if order != [] && !(key(i) < key(order[0])) {
      InsertMembers(key, order[1..], i);
      assert order == [order[0]] + order[1..];
    }
  }

  lemma LessThanAll(key: int -> int, x: int, order: seq<int>)
    requires Ascending(key, order) && forall y :: y in order ==> Less(key, x, y)
    ensures Ascending(key, [x] + order)
  {
  }

  lemma AscendingTail(key: int -> int, order: seq<int>)
    requires order != [] && Ascending(key, order)
    ensures Ascending(key, order[1..]) && forall x :: x in order[1..] ==> x in order && Less(key, order[0], x)
  {
    var rest := order[1..];
    assert forall k :: 0 <= k < |rest| ==> rest[k] == order[k + 1] && Less(key, order[0], order[k + 1]);
    forall k, l | 0 <= k < l < |rest| ensures Less(key, rest[k], rest[l]) {
      assert Less(key, order[k + 1], order[l + 1]);
    }
  }

  lemma {:induction false} InsertAscending(key: int -> int, order: seq<int>, i: int)
    requires Ascending(key, order) && forall x :: x in order ==> x < i
    ensures Ascending(key, Insert(key, order, i))
  {
    if order != [] {
      AscendingTail(key, order);
      if key(i) < key(order[0]) {
        assert forall y :: y in order ==> Less(key, i, y) by {
          assert forall y :: y in order ==> y == order[0] || y in order[1..];
        }
        LessThanAll(key, i, order);
      } else {
        InsertAscending(key, order[1..], i);
        InsertMembers(key, order[1..], i);
        assert order[0] in order;
        LessThanAll(key, order[0], Insert(key, order[1..], i));
      }
    }
  }

  lemma {:induction false} SortedSpec(key: int -> int, n: nat)
    ensures Ascending(key, Sorted(key, n)) && |Sorted(key, n)| == n
    ensures forall i :: i in Sorted(key, n) <==> 0 <= i < n
  {
    if n > 0 {
      SortedSpec(key, n - 1);
      InsertMembers(key, Sorted(key, n - 1), n - 1);
      InsertAscending(key, Sorted(key, n - 1), n - 1);
    }
  }

  function ZAt(zs: seq<int>): int -> int { i => if 0 <= i < |zs| then zs[i] else 0 }

  ghost predicate InOrder(zs: seq<int>, order: seq<int>) {
    && (forall k :: 0 <= k < |order| ==> 0 <= order[k] < |zs|)
    && (forall k, l :: 0 <= k < l < |order| ==> Before(zs, order[k], order[l]))
  }

  lemma {:induction false} SortedInOrder(zs: seq<int>)
    ensures InOrder(zs, Sorted(ZAt(zs), |zs|)) && |Sorted(ZAt(zs), |zs|)| == |zs|
    ensures forall i :: 0 <= i < |zs| ==> i in Sorted(ZAt(zs), |zs|)
  {
    SortedSpec(ZAt(zs), |zs|);
    var order := Sorted(ZAt(zs), |zs|);
    assert forall k :: 0 <= k < |order| ==> order[k] in order;
    forall k, l | 0 <= k < l < |order| ensures Before(zs, order[k], order[l]) {
      assert Less(ZAt(zs), order[k], order[l]);
    }
  }

  /** n strictly increasing naturals below n are 0, 1, ..., n-1: the k-th item of the sort has rank k. */
  lemma {:induction false} RankAtLeast(zs: seq<int>, order: seq<int>, k: nat)
    requires InOrder(zs, order) && k < |order|
    ensures Rank(zs, order[k]) >= k
  {
    if k > 0 {
      RankAtLeast(zs, order, k - 1);
      RankMonotone(zs, order[k - 1], order[k], |zs|);
    }
  }

  lemma {:induction false} RankAtMost(zs: seq<int>, order: seq<int>, k: nat)
    requires InOrder(zs, order) && k < |order| == |zs|
    ensures Rank(zs, order[k]) <= k
    decreases |order| - k
  {
    if k + 1 == |order| {
      RankBelow(zs, order[k], |zs|);
    } else {
      RankAtMost(zs, order, k + 1);
      RankMonotone(zs, order[k], order[k + 1], |zs|);
    }
  }

  /** The allocator object; element i of the array is the zIndex field of open item i. */
  class WindowZAllocator {
    var next: int

    constructor ()
      ensures next == WINDOW_BASE
    {
      next := WINDOW_BASE;
    }

    method Renumber(zIndex: array<int>)
      modifies this, zIndex
      ensures zIndex[..] == Renumbered(old(zIndex[..]))
      ensures next == WINDOW_BASE + zIndex.Length
    {
      next := WINDOW_BASE;
      ghost var zs := zIndex[..];
      var order := Sorted(ZAt(zIndex[..]), zIndex.Length);
      SortedInOrder(zs);
      var k := 0;
      while k < |order|
        invariant k <= |order| && next == WINDOW_BASE + k
        invariant forall l :: 0 <= l < k ==> zIndex[order[l]] == Renumbered(zs)[order[l]]
      {
        RankAtLeast(zs, order, k);
        RankAtMost(zs, order, k);
        next := next + 1;
        zIndex[order[k]] := next;
        k := k + 1;
      }
      forall i | 0 <= i < |zs| ensures zIndex[i] == Renumbered(zs)[i] {
        assert i in order;
      }
    }

    method NextZ(zIndex: array<int>) returns (z: int)
      modifies this, zIndex
      ensures Allocation(next, zIndex[..], z) == Allocate(old(next), old(zIndex[..]))
    {
      if next >= WINDOW_MAX || MaxZ(zIndex[..]) >= WINDOW_MAX {
        Renumber(zIndex);
      }
      next := next + 1;
      z := next;
    }
  }
}
