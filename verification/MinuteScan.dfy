/**
 The reference the day-first search is measured against: walk the minutes of a local clock of
 fixed offset one by one and keep the first matching ones. `hit` says which minutes match.
 */
module MinuteScan {
  predicate Ascending(xs: seq<int>) { forall i, j :: 0 <= i < j < |xs| ==> xs[i] < xs[j] }

  /** The instant, in ms, of local minute m under offset o. */
  function InstantOf(o: int, m: int): int { m * 60000 - o }

  /** The local minute an instant lies in. */
  function MinuteOf(o: int, t: int): int { (t + o) / 60000 }

  lemma MinuteOfInstant(o: int, m: int)
    ensures MinuteOf(o, InstantOf(o, m)) == m
  {
  }

  /** t is the start of a local minute that matches. */
  predicate Fires(hit: int -> bool, o: int, t: int) {
    t == InstantOf(o, MinuteOf(o, t)) && hit(MinuteOf(o, t))
  }

  /** Try every local minute from m on, up to the instant `end`, and keep at most `count` matches. */
  function Scan(hit: int -> bool, o: int, m: int, end: int, count: nat): seq<int>
    decreases end + o - m * 60000
  {
    if InstantOf(o, m) > end || count == 0 then []
    else if hit(m) then [InstantOf(o, m)] + Scan(hit, o, m + 1, end, count - 1)
    else Scan(hit, o, m + 1, end, count)
  }

  /** out is exactly the first `count` firing instants after `now` and up to `end`, in order. */
  ghost predicate FirstRuns(hit: int -> bool, o: int, now: int, end: int, count: int, out: seq<int>) {
    && |out| <= count
    && Ascending(out)
    && (forall t :: t in out ==> now < t <= end && Fires(hit, o, t))
    && (forall t :: now < t <= end && Fires(hit, o, t) ==>
          t in out || (|out| == count && forall u :: u in out ==> u < t))
  }

  lemma {:induction false} ScanSound(hit: int -> bool, o: int, m: int, end: int, count: nat)
    ensures var r := Scan(hit, o, m, end, count);
      && |r| <= count && Ascending(r)
      && forall t :: t in r ==> InstantOf(o, m) <= t <= end && Fires(hit, o, t)
    decreases end + o - m * 60000
  {
    if InstantOf(o, m) <= end && count > 0 {
      var left := if hit(m) then count - 1 else count;
      ScanSound(hit, o, m + 1, end, left);
      var rest := Scan(hit, o, m + 1, end, left);
      assert forall i :: 0 <= i < |rest| ==> rest[i] in rest;
      MinuteOfInstant(o, m);
    }
  }

  lemma {:induction false} ScanComplete(hit: int -> bool, o: int, m: int, end: int, count: nat, t: int)
    requires InstantOf(o, m) <= t <= end && Fires(hit, o, t)
    ensures var r := Scan(hit, o, m, end, count);
      t in r || (|r| == count && forall u :: u in r ==> u < t)
    decreases end + o - m * 60000
  {
    if count > 0 && t != InstantOf(o, m) {
      ScanComplete(hit, o, m + 1, end, if hit(m) then count - 1 else count, t);
    }
    MinuteOfInstant(o, m);
  }

  /** The scan started at the first whole minute after `now` finds the first runs. */
  lemma ScanIsFirstRuns(hit: int -> bool, o: int, now: int, end: int, count: nat)
    ensures FirstRuns(hit, o, now, end, count, Scan(hit, o, MinuteOf(o, now) + 1, end, count))
  {
    var m := MinuteOf(o, now) + 1;
    ScanSound(hit, o, m, end, count);
    forall t | now < t <= end && Fires(hit, o, t)
      ensures var r := Scan(hit, o, m, end, count);
        t in r || (|r| == count && forall u :: u in r ==> u < t)
    {
      ScanComplete(hit, o, m, end, count, t);
    }
  }

  /** There is one list of first runs: any two agree element by element. */
  lemma {:induction false} FirstRunsAgree(hit: int -> bool, o: int, now: int, end: int, count: int, a: seq<int>,
      b: seq<int>, k: nat)
    requires FirstRuns(hit, o, now, end, count, a) && FirstRuns(hit, o, now, end, count, b)
    requires k <= |a| && k <= |b|
    ensures forall j :: 0 <= j < k ==> a[j] == b[j]
  {
    if k > 0 {
      FirstRunsAgree(hit, o, now, end, count, a, b, k - 1);
      assert a[k - 1] in a && b[k - 1] in b;
      if a[k - 1] != b[k - 1] {
        assert false;
      }
    }
  }

  lemma FirstRunsUnique(hit: int -> bool, o: int, now: int, end: int, count: int, a: seq<int>, b: seq<int>)
    requires FirstRuns(hit, o, now, end, count, a) && FirstRuns(hit, o, now, end, count, b)
    ensures a == b
  {
    assert |a| < |b| ==> b[|a|] in b;
    assert |b| < |a| ==> a[|b|] in a;
    FirstRunsAgree(hit, o, now, end, count, a, b, if |a| < |b| then |a| else |b|);
  }

  // ------------------------------------------------------------ a partial search

  /** Of the local minutes before `cut`, out holds exactly those that fire in time. */
  ghost predicate Seen(hit: int -> bool, o: int, now: int, end: int, out: seq<int>, cut: int) {
    && Ascending(out)
    && (forall t :: t in out ==> now < t <= end && Fires(hit, o, t) && MinuteOf(o, t) < cut)
    && (forall t :: now < t <= end && Fires(hit, o, t) && MinuteOf(o, t) < cut ==> t in out)
  }

  lemma SeenNothing(hit: int -> bool, o: int, now: int, end: int, cut: int)
    requires cut <= MinuteOf(o, now)
    ensures Seen(hit, o, now, end, [], cut)
  {
  }

  lemma SeenSkip(hit: int -> bool, o: int, now: int, end: int, out: seq<int>, cut: int, cut': int)
    requires Seen(hit, o, now, end, out, cut) && cut <= cut'
    requires forall m :: cut <= m < cut' ==> !hit(m)
    ensures Seen(hit, o, now, end, out, cut')
  {
  }

  /** The minute at the cut matches but its instant is not after `now`. */
  lemma SeenTooEarly(hit: int -> bool, o: int, now: int, end: int, out: seq<int>, m: int)
    requires Seen(hit, o, now, end, out, m) && InstantOf(o, m) <= now
    ensures Seen(hit, o, now, end, out, m + 1)
  {
  }

  lemma SeenTake(hit: int -> bool, o: int, now: int, end: int, out: seq<int>, m: int)
    requires Seen(hit, o, now, end, out, m) && hit(m) && now < InstantOf(o, m) <= end
    ensures Seen(hit, o, now, end, out + [InstantOf(o, m)], m + 1)
  {
    MinuteOfInstant(o, m);
    forall i | 0 <= i < |out| ensures out[i] < InstantOf(o, m) {
      assert out[i] in out;
    }
  }

  /** The search may stop: the list is full, or every instant in time lies before the cut. */
  lemma SeenFull(hit: int -> bool, o: int, now: int, end: int, count: int, out: seq<int>, cut: int)
    requires Seen(hit, o, now, end, out, cut) && |out| == count
    ensures FirstRuns(hit, o, now, end, count, out)
  {
    forall t, u | Fires(hit, o, t) && Fires(hit, o, u) && MinuteOf(o, u) < MinuteOf(o, t) ensures u < t {
    }
  }

  lemma SeenPast(hit: int -> bool, o: int, now: int, end: int, count: int, out: seq<int>, cut: int)
    requires Seen(hit, o, now, end, out, cut) && |out| <= count && end < InstantOf(o, cut)
    ensures FirstRuns(hit, o, now, end, count, out)
  {
    forall t | t <= end && Fires(hit, o, t) ensures MinuteOf(o, t) < cut {
    }
  }
}
