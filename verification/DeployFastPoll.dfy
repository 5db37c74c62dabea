/**
 The adaptive polling machine of src/composables/useDeployFastPoll.js. Timers are modelled by
 the time they are due; a timer fires when the clock stands at that time, and the clock does
 not pass it. `Poll` and its functions say what each callback of the class below does; the
 claims are about all timed runs of them.
 */
module DeployFastPoll {
  import opened Wrappers

  /** fall: when the calm timer is due; cap: when the cap on fast polling is due. */
  datatype Poll = Poll(fast: bool, fall: Option<int>, cap: Option<int>, suppressed: bool)

  datatype Config = Config(holdMs: nat, maxFastMs: nat)

  function ArmFall(p: Poll, now: int, c: Config): Poll {
    if p.fall.Some? then p else p.(fall := Some(now + c.holdMs))
  }

  /** The watcher, called when busy changes (and once at the start). */
  function OnBusy(p: Poll, busy: bool, now: int, c: Config): Poll {
    if !busy then ArmFall(p, now, c)
    else if p.suppressed || p.fast then p.(fall := None)
    else p.(fall := None, fast := true, cap := Some(now + c.maxFastMs))
  }

  function FallElapsed(p: Poll): Poll { Poll(false, None, None, false) }

  function TripCap(p: Poll): Poll { Poll(false, None, None, true) }

  /** A report that only repeats the last one changes nothing: it neither prolongs the cap nor restarts the hold. */
  lemma RepeatsChangeNothing(p: Poll, busy: bool, t1: int, t2: int, c: Config)
    ensures OnBusy(OnBusy(p, busy, t1, c), busy, t2, c) == OnBusy(p, busy, t1, c)
  {
  }

  class Machine {
    var fastMode: bool
    var fallTimer: Option<int>
    var maxTimer: Option<int>
    var suppressed: bool
    const config: Config

    function View(): Poll
      reads this
    {
      Poll(fastMode, fallTimer, maxTimer, suppressed)
    }

    constructor (config: Config)
      ensures View() == Poll(false, None, None, false) && this.config == config
    {
      fastMode, fallTimer, maxTimer, suppressed := false, None, None, false;
      this.config := config;
    }

    method Watch(busy: bool, now: int)
      modifies this
      ensures View() == OnBusy(old(View()), busy, now, config)
    {
      if busy {
        if suppressed {
          fallTimer := None;
          return;
        }
        fallTimer := None;
        if !fastMode {
          fastMode := true;
          maxTimer := Some(now + config.maxFastMs);
        }
      } else {
        if fallTimer.Some? { return; }
        fallTimer := Some(now + config.holdMs);
      }
    }

    method OnFallTimer()
      modifies this
      ensures View() == FallElapsed(old(View()))
    {
      fallTimer := None;
      fastMode := false;
      maxTimer := None;
      suppressed := false;
    }

    method OnMaxTimer()
      modifies this
      ensures View() == TripCap(old(View()))
    {
      maxTimer := None;
      fallTimer := None;
      fastMode := false;
      suppressed := true;
    }

    method Dispose()
      modifies this`fallTimer, this`maxTimer
      ensures View() == old(View()).(fall := None, cap := None)
    {
      fallTimer := None;
      maxTimer := None;
    }
  }

  // ------------------------------------------------------------ timed runs

  /**
   A moment of a run. busy is what the watcher last saw. The last three components only record
   history: since when the poll is fast, since when busy is false, and whether the cap tripped in the
   present stretch of calm.
   */
  datatype Moment = Moment(
    now: int, busy: bool, poll: Poll, disposed: bool,
    fastSince: int, calmSince: int, trippedInCalm: bool)

  datatype Event = Advance(d: nat) | Observe(b: bool) | FallFires | CapFires | Dispose

  predicate Due(timer: Option<int>, now: int) { timer == Some(now) }

  predicate NotBefore(timer: Option<int>, t: int) { timer.Some? ==> t <= timer.value }

  predicate Enabled(m: Moment, e: Event) {
    match e
    case Advance(d) => NotBefore(m.poll.fall, m.now + d) && NotBefore(m.poll.cap, m.now + d)
    case Observe(b) => !m.disposed
    case FallFires => Due(m.poll.fall, m.now)
    case CapFires => Due(m.poll.cap, m.now)
    case Dispose => !m.disposed
  }

  function Seen(m: Moment, b: bool, c: Config): Moment {
    var p := OnBusy(m.poll, b, m.now, c);
    m.(busy := b, poll := p,
       fastSince := if p.fast && !m.poll.fast then m.now else m.fastSince,
       calmSince := if !b then m.now else m.calmSince,
       trippedInCalm := b && m.trippedInCalm)
  }

  function Step(m: Moment, e: Event, c: Config): Moment {
    match e
    case Advance(d) => m.(now := m.now + d)
    case Observe(b) => if b == m.busy then m else Seen(m, b, c)
    case FallFires => m.(poll := FallElapsed(m.poll))
    case CapFires => m.(poll := TripCap(m.poll), trippedInCalm := !m.busy)
    case Dispose => m.(disposed := true, poll := m.poll.(fall := None, cap := None))
  }

  /** The watcher's immediate first call. */
  function Start(b: bool, now: int, c: Config): Moment {
    Seen(Moment(now, !b, Poll(false, None, None, false), false, now, now, false), b, c)
  }

  /** ms[0], ms[1], ... is a run: every moment follows from the one before by some event. */
  ghost predicate Run(ms: seq<Moment>, c: Config) {
    && ms != []
    && (exists b, now :: ms[0] == Start(b, now, c))
    && forall i :: 0 <= i < |ms| - 1 ==> Follows(ms[i], ms[i + 1], c)
  }

  ghost predicate Follows(m: Moment, m': Moment, c: Config) {
    exists e :: Enabled(m, e) && m' == Step(m, e, c)
  }

  ghost predicate Inv(m: Moment, c: Config) {
    var p := m.poll;
    && NotBefore(p.fall, m.now) && NotBefore(p.cap, m.now)
    && (p.suppressed ==> !p.fast)
    && (p.fast ==> m.fastSince <= m.now)
    && (p.cap.Some? ==> p.fast && p.cap == Some(m.fastSince + c.maxFastMs))
    && (p.fall.Some? ==> !m.busy && p.fall == Some(m.calmSince + c.holdMs))
    && (!m.busy ==> m.calmSince <= m.now)
    && (!m.disposed ==>
         && (p.fast ==> p.cap.Some?)
         && (p.fast && !m.busy ==> p.fall.Some?)
         && (!p.fast && m.busy ==> p.suppressed)
         && (!m.busy && m.trippedInCalm ==> p.suppressed && p.fall.None?)
         && (!m.busy && p.suppressed && p.fall.None? ==> m.trippedInCalm))
  }

  lemma StepInv(m: Moment, m': Moment, c: Config)
    requires Inv(m, c) && Follows(m, m', c)
    ensures Inv(m', c)
  {
  }

  lemma {:induction false} RunInv(ms: seq<Moment>, c: Config, i: nat)
    requires Run(ms, c) && i < |ms|
    ensures Inv(ms[i], c)
  {
    if i > 0 {
      RunInv(ms, c, i - 1);
      StepInv(ms[i - 1], ms[i], c);
    }
  }

  /**
   Fast polling is on exactly while the cap timer is armed; while a deployment is busy it is on unless
   suppressed, and suppressed it is off.
   */
  lemma FastIffCapped(ms: seq<Moment>, c: Config, i: nat)
    requires Run(ms, c) && i < |ms| && !ms[i].disposed
    ensures ms[i].poll.fast <==> ms[i].poll.cap.Some?
    ensures ms[i].busy ==> (ms[i].poll.fast <==> !ms[i].poll.suppressed)
    ensures ms[i].poll.suppressed ==> !ms[i].poll.fast
  {
    RunInv(ms, c, i);
  }

  /** It goes off for two reasons only: maxFastMs after it came on, or holdMs after the calm began. */
  lemma FastEndsOnTime(ms: seq<Moment>, c: Config, i: nat)
    requires Run(ms, c) && i + 1 < |ms| && ms[i].poll.fast && !ms[i + 1].poll.fast
    ensures
      || (ms[i].now == ms[i].fastSince + c.maxFastMs && ms[i + 1].poll.suppressed)
      || (ms[i].now == ms[i].calmSince + c.holdMs && !ms[i].busy && !ms[i + 1].poll.suppressed)
  {
    RunInv(ms, c, i);
    assert Follows(ms[i], ms[i + 1], c);
  }

  /** After the page is left no timer is armed, and nothing changes any more. */
  lemma {:induction false} DisposedIsStill(ms: seq<Moment>, c: Config, i: nat, j: nat)
    requires Run(ms, c) && i <= j < |ms| && ms[i].disposed
    ensures ms[j].disposed && ms[j].poll == ms[i].poll
    ensures ms[j].poll.fall.None? && ms[j].poll.cap.None?
  {
    if i < j {
      DisposedIsStill(ms, c, i, j - 1);
      assert Follows(ms[j - 1], ms[j], c);
    } else {
      NoTimerOnceDisposed(ms, c, i);
    }
  }

  lemma {:induction false} NoTimerOnceDisposed(ms: seq<Moment>, c: Config, i: nat)
    requires Run(ms, c) && i < |ms|
    ensures ms[i].disposed ==> ms[i].poll.fall.None? && ms[i].poll.cap.None?
  {
    if i > 0 {
      NoTimerOnceDisposed(ms, c, i - 1);
      assert Follows(ms[i - 1], ms[i], c);
    }
  }

  ghost predicate FastThroughout(ms: seq<Moment>, i: nat, j: nat)
    requires i <= j < |ms|
  {
    forall k :: i <= k <= j ==> ms[k].poll.fast && !ms[k].disposed
  }

  lemma {:induction false} FastSinceStays(ms: seq<Moment>, c: Config, i: nat, j: nat)
    requires Run(ms, c) && i <= j < |ms| && FastThroughout(ms, i, j)
    ensures ms[j].fastSince == ms[i].fastSince
  {
    if i < j {
      FastSinceStays(ms, c, i, j - 1);
      assert Follows(ms[j - 1], ms[j], c);
    }
  }

  /** No unbroken stretch of fast polling is longer than maxFastMs, however busy flaps in it. */
  lemma FastIsBounded(ms: seq<Moment>, c: Config, i: nat, j: nat)
    requires Run(ms, c) && i <= j < |ms| && forall k :: i <= k <= j ==> ms[k].poll.fast && !ms[k].disposed
    ensures ms[j].now - ms[i].now <= c.maxFastMs
  {
    RunInv(ms, c, i);
    RunInv(ms, c, j);
    FastSinceStays(ms, c, i, j);
  }

  ghost predicate CalmThroughout(ms: seq<Moment>, i: nat, j: nat)
    requires i <= j < |ms|
  {
    forall k :: i <= k <= j ==> !ms[k].busy && !ms[k].disposed
  }

  lemma {:induction false} CalmSinceStays(ms: seq<Moment>, c: Config, i: nat, j: nat)
    requires Run(ms, c) && i <= j < |ms| && CalmThroughout(ms, i, j)
    ensures ms[j].calmSince == ms[i].calmSince
  {
    if i < j {
      CalmSinceStays(ms, c, i, j - 1);
      assert Follows(ms[j - 1], ms[j], c);
    }
  }

  /** More than holdMs of unbroken calm always ends fast polling. */
  lemma CalmEndsFast(ms: seq<Moment>, c: Config, i: nat, j: nat)
    requires Run(ms, c) && i <= j < |ms| && CalmThroughout(ms, i, j) && ms[j].now - ms[i].now > c.holdMs
    ensures !ms[j].poll.fast
  {
    RunInv(ms, c, i);
    RunInv(ms, c, j);
    CalmSinceStays(ms, c, i, j);
  }

  /**
   The suppression after a cap trip: more than holdMs of unbroken calm lifts it exactly when the
   cap did not trip inside that very stretch of calm. A trip during calm cancels the release timer
   and nothing re-arms it, so the documented release never comes in that stretch.
   */
  lemma CalmLiftsSuppressionIff(ms: seq<Moment>, c: Config, i: nat, j: nat)
    requires Run(ms, c) && i <= j < |ms| && CalmThroughout(ms, i, j) && ms[j].now - ms[i].now > c.holdMs
    ensures !ms[j].poll.suppressed <==> !ms[j].trippedInCalm
  {
    RunInv(ms, c, i);
    RunInv(ms, c, j);
    CalmSinceStays(ms, c, i, j);
  }

  /**
   That the cap tripped inside a stretch of calm can be seen of the poll: at some moment of the stretch the
   suppression came on.
   */
  lemma {:induction false} TripsInCalm(ms: seq<Moment>, c: Config, i: nat, j: nat)
    requires Run(ms, c) && 0 < i <= j < |ms| && ms[i - 1].busy && CalmThroughout(ms, i, j)
    ensures ms[j].trippedInCalm <==>
      exists k :: i <= k < j && !ms[k].poll.suppressed && ms[k + 1].poll.suppressed
  {
    if i < j {
      TripsInCalm(ms, c, i, j - 1);
      RunInv(ms, c, j - 1);
      CalmStep(ms[j - 1], ms[j], c);
    } else {
      assert Follows(ms[i - 1], ms[i], c);
    }
  }

  lemma CalmStep(m: Moment, m': Moment, c: Config)
    requires Inv(m, c) && Follows(m, m', c) && !m.busy && !m'.busy
    ensures m'.trippedInCalm <==> m.trippedInCalm || (!m.poll.suppressed && m'.poll.suppressed)
  {
  }

  /**
   A deployment as it should go: busy at 0 and calm at d, well before the cap. The poll is fast from the first
   moment until holdMs after d, and then neither fast nor suppressed while time goes on.
   */
  lemma OrdinaryDeploy(c: Config, d: nat) returns (ms: seq<Moment>)
    requires d + c.holdMs < c.maxFastMs
    ensures Run(ms, c) && |ms| == 6
    ensures forall k :: 0 <= k < 4 ==> ms[k].poll.fast
    ensures ms[2].now == d && !ms[2].busy && ms[3].now == d + c.holdMs
    ensures ms[5].now == d + c.holdMs + 1 && !ms[5].poll.fast && !ms[5].poll.suppressed
  {
    var m0 := Start(true, 0, c);
    var m1 := Step(m0, Advance(d), c);
    var m2 := Step(m1, Observe(false), c);
    var m3 := Step(m2, Advance(c.holdMs), c);
    var m4 := Step(m3, FallFires, c);
    var m5 := Step(m4, Advance(1), c);
    ms := [m0, m1, m2, m3, m4, m5];
    assert Enabled(m0, Advance(d)) && Follows(m0, m1, c);
    assert Enabled(m1, Observe(false)) && Follows(m1, m2, c);
    assert Enabled(m2, Advance(c.holdMs)) && Follows(m2, m3, c);
    assert Enabled(m3, FallFires) && Follows(m3, m4, c);
    assert Enabled(m4, Advance(1)) && Follows(m4, m5, c);
  }

  /** From the i-th to the j-th moment busy is false, for at least holdMs. */
  ghost predicate Rested(ms: seq<Moment>, c: Config, i: nat, j: nat) {
    i <= j < |ms| && CalmThroughout(ms, i, j) && ms[j].now - ms[i].now >= c.holdMs
  }

  /** The stretch of calm that an armed release timer is counting, begun after moment k. */
  ghost predicate Counting(ms: seq<Moment>, c: Config, k: nat, i: nat, j: nat) {
    k < i <= j < |ms| && CalmThroughout(ms, i, j) && ms[j].poll.fall == Some(ms[i].now + c.holdMs)
  }

  /** While suppressed, an event either is the release or leaves the poll suppressed. */
  lemma SuppressedStep(m: Moment, m': Moment, c: Config)
    requires Inv(m, c) && Follows(m, m', c) && m.poll.suppressed && !m'.disposed
    ensures if m'.poll.suppressed
      then m'.poll.fall.Some? ==>
        !m'.busy && (if m.poll.fall.Some? then !m.busy && m'.poll.fall == m.poll.fall
          else m'.poll.fall == Some(m'.now + c.holdMs))
      else !m.busy && Due(m.poll.fall, m.now)
  {
  }

  /** The same over a run, where i is the start of the calm that an armed release timer counts. */
  lemma SuppressedOn(ms: seq<Moment>, c: Config, k: nat, i: nat, j: nat)
    requires Run(ms, c) && k + 1 < j < |ms| && !ms[j].disposed
    requires ms[j - 1].poll.suppressed && (ms[j - 1].poll.fall.Some? ==> Counting(ms, c, k, i, j - 1))
    ensures !ms[j].poll.suppressed ==> k < i && Rested(ms, c, i, j - 1)
    ensures ms[j].poll.suppressed && ms[j].poll.fall.Some? ==>
      Counting(ms, c, k, if ms[j - 1].poll.fall.None? then j else i, j)
  {
    RunInv(ms, c, j - 1);
    SuppressedStep(ms[j - 1], ms[j], c);
  }

  lemma {:induction false} AfterTrip(ms: seq<Moment>, c: Config, k: nat, j: nat) returns (i: nat, rested: bool, e: nat)
    requires Run(ms, c) && k + 1 <= j < |ms| && !ms[j].disposed
    requires Due(ms[k].poll.cap, ms[k].now) && ms[k + 1] == Step(ms[k], CapFires, c)
    ensures rested ==> k < i && e <= j && Rested(ms, c, i, e)
    ensures !rested ==> ms[j].poll.suppressed && (ms[j].poll.fall.Some? ==> Counting(ms, c, k, i, j))
  {
    i, rested, e := k + 1, false, k + 1;
    if j > k + 1 {
      NotDisposedBefore(ms[j - 1], ms[j], c);
      i, rested, e := AfterTrip(ms, c, k, j - 1);
      if !rested {
        SuppressedOn(ms, c, k, i, j);
        if !ms[j].poll.suppressed {
          rested, e := true, j - 1;
        } else if ms[j - 1].poll.fall.None? {
          i := j;
        }
      }
    }
  }

  lemma NotDisposedBefore(m: Moment, m': Moment, c: Config)
    requires Follows(m, m', c) && !m'.disposed
    ensures !m.disposed
  {
  }

  /**
   Once the cap has tripped, at moment k, the poll is fast again at a later moment j only if in
   between busy was false without a break for a full holdMs.
   */
  lemma NoFastBeforeRest(ms: seq<Moment>, c: Config, k: nat, j: nat)
    requires Run(ms, c) && k + 1 <= j < |ms| && !ms[j].disposed
    requires Due(ms[k].poll.cap, ms[k].now) && ms[k + 1] == Step(ms[k], CapFires, c)
    requires ms[j].poll.fast
    ensures exists i, e ::
      && k < i <= e <= j && ms[e].now - ms[i].now >= c.holdMs
      && forall n :: i <= n <= e ==> !ms[n].busy && !ms[n].disposed
  {
    var i, rested, e := AfterTrip(ms, c, k, j);
    RunInv(ms, c, j);
    assert Rested(ms, c, i, e);
  }

  /**
   The trip during calm happens: busy at 0, calm again one tick before the cap, and the cap inside
   the hold. After any further calm, however long, a new busy phase is not polled fast.
   */
  lemma CalmTripMissesNextDeploy(c: Config, d: nat) returns (ms: seq<Moment>)
    requires c.maxFastMs >= 1 && c.holdMs >= 2
    ensures Run(ms, c) && |ms| == 7
    ensures CalmThroughout(ms, 4, 5) && ms[5].now - ms[4].now == d
    ensures ms[6].busy && !ms[6].poll.fast
  {
    var m0 := Start(true, 0, c);
    var m1 := Step(m0, Advance(c.maxFastMs - 1), c);
    var m2 := Step(m1, Observe(false), c);
    var m3 := Step(m2, Advance(1), c);
    var m4 := Step(m3, CapFires, c);
    var m5 := Step(m4, Advance(d), c);
    var m6 := Step(m5, Observe(true), c);
    ms := [m0, m1, m2, m3, m4, m5, m6];
    assert Enabled(m0, Advance(c.maxFastMs - 1)) && Follows(m0, m1, c);
    assert Enabled(m1, Observe(false)) && Follows(m1, m2, c);
    assert Enabled(m2, Advance(1)) && Follows(m2, m3, c);
    assert Enabled(m3, CapFires) && Follows(m3, m4, c);
    assert Enabled(m4, Advance(d)) && Follows(m4, m5, c);
    assert Enabled(m5, Observe(true)) && Follows(m5, m6, c);
    assert Run(ms, c);
  }
}
