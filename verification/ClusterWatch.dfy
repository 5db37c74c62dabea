/**
 The watch reconnect controller of src/composables/useClusterWatch.js. Connections are numbered
 in the order they are made. The environment may call any callback of any connection ever made,
 at any time, even after that connection was aborted or has failed.
 */
module ClusterWatch {
  import opened Wrappers

  const DEGRADED_RETRY_MS := 60000

  datatype Config = Config(baseMs: nat, maxMs: nat, maxFailures: int)

  datatype WatchState = Off | Reconnecting | Live | Degraded

  /**
   The closure variables of the controller, and what it has done outside: how many connections it
   made, which of them it aborted, and how many relists are still running.
   */
  datatype Ctl = Ctl(
    state: WatchState, failures: nat, timer: Option<int>, stopped: bool, handle: Option<nat>,
    made: nat, aborted: set<nat>, relists: nat)

  function Pow2(n: nat): (r: nat)
    ensures r >= 1
  {
    if n == 0 then 1 else 2 * Pow2(n - 1)
  }

  function Min(a: int, b: int): int { if a <= b then a else b }

  function DelayFor(c: Config, n: nat): int
    requires n >= 1
  {
    Min(c.baseMs * Pow2(n - 1), c.maxMs)
  }

  /** The delay before the retry that follows the n-th failure in a row. */
  function RetryDelay(c: Config, n: nat): int
    requires n >= 1
  {
    if n >= c.maxFailures then DEGRADED_RETRY_MS else DelayFor(c, n)
  }

  function Open(k: Ctl): Ctl {
    k.(timer := None,
       aborted := if k.handle.Some? then k.aborted + {k.handle.value} else k.aborted,
       handle := Some(k.made), made := k.made + 1)
  }

  function OnOpen(k: Ctl): Ctl {
    if k.stopped then k else k.(failures := 0, state := Live)
  }

  function OnFailure(k: Ctl, gone: bool, c: Config): Ctl {
    if k.stopped then k
    else if gone then k.(timer := None, state := Reconnecting, relists := k.relists + 1)
    else
      var n := k.failures + 1;
      k.(failures := n, timer := Some(RetryDelay(c, n)), state := if n >= c.maxFailures then Degraded else Reconnecting)
  }

  function RelistDone(k: Ctl): Ctl
    requires k.relists > 0
  {
    var k' := k.(relists := k.relists - 1);
    if k.stopped then k' else Open(k')
  }

  function TimerFires(k: Ctl): Ctl { if k.stopped then k else Open(k) }

  function Start(k: Ctl): Ctl {
    if !k.stopped then k else Open(k.(stopped := false, failures := 0, state := Reconnecting))
  }

  function Stop(k: Ctl): Ctl {
    k.(stopped := true, timer := None, handle := None, state := Off,
       aborted := if k.handle.Some? then k.aborted + {k.handle.value} else k.aborted)
  }

  const Initial := Ctl(Off, 0, None, true, None, 0, {}, 0)

  // ------------------------------------------------------------ the controller object

  class WatchController {
    var state: WatchState
    var failures: nat
    var timer: Option<int>
    var stopped: bool
    var handle: Option<nat>
    var made: nat
    var aborted: set<nat>
    var relists: nat
    const config: Config

    function View(): Ctl
      reads this
    {
      Ctl(state, failures, timer, stopped, handle, made, aborted, relists)
    }

    constructor (config: Config)
      ensures View() == Initial && this.config == config
    {
      state, failures, timer, stopped, handle, made, aborted, relists := Off, 0, None, true, None, 0, {}, 0;
      this.config := config;
    }

    method AbortHandle()
      modifies this`aborted
      ensures View() == old(View()).(aborted := if handle.Some? then old(aborted) + {handle.value} else old(aborted))
    {
      if handle.Some? { aborted := aborted + {handle.value}; }
    }

    method DoOpen()
      modifies this
      ensures View() == Open(old(View()))
    {
      timer := None;
      AbortHandle();
      handle := Some(made);
      made := made + 1;
    }

    method HandleOpen()
      modifies this`failures, this`state
      ensures View() == OnOpen(old(View()))
    {
      if stopped { return; }
      failures := 0;
      state := Live;
    }

    method HandleFailure(gone: bool)
      modifies this
      ensures View() == OnFailure(old(View()), gone, config)
    {
      if stopped { return; }
      timer := None;
      if gone {
        state := Reconnecting;
        relists := relists + 1;
        return;
      }
      failures := failures + 1;
      if failures >= config.maxFailures {
        state := Degraded;
        timer := Some(DEGRADED_RETRY_MS);
        return;
      }
      state := Reconnecting;
      timer := Some(DelayFor(config, failures));
    }

    method HandleRelistDone()
      requires relists > 0
      modifies this
      ensures View() == RelistDone(old(View()))
    {
      relists := relists - 1;
      if !stopped { DoOpen(); }
    }

    method HandleTimer()
      modifies this
      ensures View() == TimerFires(old(View()))
    {
      if !stopped { DoOpen(); }
    }

    method DoStart()
      modifies this
      ensures View() == Start(old(View()))
    {
      if !stopped { return; }
      stopped := false;
      failures := 0;
      state := Reconnecting;
      DoOpen();
    }

    method DoStop()
      modifies this
      ensures View() == Stop(old(View()))
    {
      stopped := true;
      timer := None;
      AbortHandle();
      handle := None;
      state := Off;
    }
  }

  // ------------------------------------------------------------ all interleavings

  datatype Event =
    | StartCall
    | StopCall
    | Opened(c: nat)              // connection c calls onOpen
    | Failed(c: nat, gone: bool)  // connection c calls onError or onClose; gone is HTTP 410
    | TimerEvent
    | RelistEvent

  /** `ended` is the set of connections that have reported their end. */
  datatype World = World(k: Ctl, ended: set<nat>)

  predicate Enabled(w: World, e: Event) {
    match e
    case Opened(c) => c < w.k.made
    case Failed(c, _) => c < w.k.made
    case TimerEvent => w.k.timer.Some?
    case RelistEvent => w.k.relists > 0
    case _ => true
  }

  function Step(w: World, e: Event, cfg: Config): World
    requires Enabled(w, e)
  {
    match e
    case StartCall => w.(k := Start(w.k))
    case StopCall => w.(k := Stop(w.k))
    case Opened(c) => w.(k := OnOpen(w.k))
    case Failed(c, gone) => World(OnFailure(w.k, gone, cfg), w.ended + {c})
    case TimerEvent => w.(k := TimerFires(w.k))
    case RelistEvent => w.(k := RelistDone(w.k))
  }

  predicate Valid(w: World, es: seq<Event>, cfg: Config)
    decreases |es|
  {
    es != [] ==> Enabled(w, es[0]) && Valid(Step(w, es[0], cfg), es[1..], cfg)
  }

  function End(w: World, es: seq<Event>, cfg: Config): World
    requires Valid(w, es, cfg)
    decreases |es|
  {
    if es == [] then w else End(Step(w, es[0], cfg), es[1..], cfg)
  }

  /** A connection the controller has not aborted and that has not ended. */
  predicate Alive(w: World, c: nat) { c < w.k.made && c !in w.k.aborted && c !in w.ended }

  ghost predicate Inv(w: World, cfg: Config) {
    var k := w.k;
    && (k.state.Off? <==> k.stopped)
    && (k.state.Live? ==> k.failures == 0)
    && (k.state.Degraded? ==> k.failures >= cfg.maxFailures)
    && (k.timer.Some? ==> !k.stopped)
    && (k.handle.Some? ==> k.handle.value < k.made)
    && (k.stopped ==> k.handle.None?)
    && (forall c :: 0 <= c < k.made && c !in k.aborted ==> k.handle == Some(c))
    && (forall c :: c in w.ended ==> c < k.made)
    && (!k.stopped ==> k.timer.Some? || k.relists > 0 || (k.handle.Some? && Alive(w, k.handle.value)))
    && (forall c :: c in k.aborted ==> c < k.made)
  }

  lemma StepInv(w: World, e: Event, cfg: Config)
    requires Inv(w, cfg) && Enabled(w, e)
    ensures Inv(Step(w, e, cfg), cfg)
  {
  }

  lemma {:induction false} RunInv(w: World, es: seq<Event>, cfg: Config)
    requires Inv(w, cfg) && Valid(w, es, cfg)
    ensures Inv(End(w, es, cfg), cfg)
    decreases |es|
  {
    if es != [] {
      StepInv(w, es[0], cfg);
      RunInv(Step(w, es[0], cfg), es[1..], cfg);
    }
  }

  /**
   In every interleaving from a fresh controller: off means stopped and nothing else; live means no
   failures counted, degraded means the limit was reached; at most one connection is not aborted;
   a running controller always waits for a connection, a timer or a relist; a stopped one for none.
   */
  lemma {:induction false} ControllerIsSafe(es: seq<Event>, cfg: Config)
    requires Valid(World(Initial, {}), es, cfg)
    ensures var w := End(World(Initial, {}), es, cfg);
      && (w.k.state.Off? <==> w.k.stopped)
      && (w.k.state.Live? ==> w.k.failures == 0)
      && (w.k.state.Degraded? ==> w.k.failures >= cfg.maxFailures)
      && (forall a, b :: Alive(w, a) && Alive(w, b) ==> a == b)
      && (!w.k.stopped ==>
            w.k.timer.Some? || w.k.relists > 0 ||
            exists c: nat :: c < w.k.made && c !in w.k.aborted && c !in w.ended)
      && (w.k.stopped ==> w.k.timer.None? && forall c :: !Alive(w, c))
  {
    RunInv(World(Initial, {}), es, cfg);
  }

  /**
   What the end of a connection does to a running controller. A 410 counts nothing, drops any timer and asks
   for one relist; any other end counts one, sets the timer anew and degrades from the maxFailures-th on. A
   stopped controller hears nothing.
   */
  lemma EndOfConnection(k: Ctl, cfg: Config)
    ensures k.stopped ==> OnFailure(k, true, cfg) == OnFailure(k, false, cfg) == OnOpen(k) == TimerFires(k) == k
    ensures !k.stopped ==>
      var gone, lost := OnFailure(k, true, cfg), OnFailure(k, false, cfg);
      && gone == k.(timer := None, state := WatchState.Reconnecting, relists := k.relists + 1)
      && lost.failures == k.failures + 1 && lost.timer == Some(RetryDelay(cfg, k.failures + 1))
      && lost.state == (if k.failures + 1 >= cfg.maxFailures then Degraded else WatchState.Reconnecting)
  {
  }

  /** A start begins anew with one connection; a stop aborts it and leaves nothing under way but relists. */
  lemma StartAndStop(k: Ctl)
    ensures k.stopped ==>
      var on := Start(k);
      && on.failures == 0 && on.state == WatchState.Reconnecting && !on.stopped && on.timer.None?
      && on.made == k.made + 1 && on.handle == Some(k.made)
    ensures !k.stopped ==> Start(k) == k
    ensures
      var off := Stop(k);
      && off.stopped && off.state == Off && off.timer.None? && off.handle.None? && off.made == k.made
      && (k.handle.Some? ==> k.handle.value in off.aborted)
  {
  }

  /** The events of a run are the calls of the controller. */
  lemma CallsOfEvents(w: World, cfg: Config)
    ensures Step(w, StartCall, cfg).k == Start(w.k) && Step(w, StopCall, cfg).k == Stop(w.k)
  {
  }

  /**
   The usual run: a connection fails before it opens, the timer makes the next one, that one opens, is then
   told that its version is gone, and the relist makes a third. The one that failed is aborted on the way.
   */
  lemma UsualRun(cfg: Config)
    requires cfg.maxFailures > 1
    ensures var run := [StartCall, Failed(0, false), TimerEvent, Opened(1), Failed(1, true), RelistEvent];
      && Valid(World(Initial, {}), run, cfg)
      && End(World(Initial, {}), run, cfg) ==
         World(Ctl(WatchState.Reconnecting, 0, None, false, Some(2), 3, {0, 1}, 0), {0, 1})
  {
    var w0 := World(Initial, {});
    var w1 := Step(w0, StartCall, cfg);
    var w2 := Step(w1, Failed(0, false), cfg);
    var w3 := Step(w2, TimerEvent, cfg);
    var w4 := Step(w3, Opened(1), cfg);
    var w5 := Step(w4, Failed(1, true), cfg);
    var w6 := Step(w5, RelistEvent, cfg);
    assert Valid(w6, [], cfg) && End(w6, [], cfg) == w6;
    OneMoreStep(w5, RelistEvent, [], cfg);
    OneMoreStep(w4, Failed(1, true), [RelistEvent], cfg);
    OneMoreStep(w3, Opened(1), [Failed(1, true), RelistEvent], cfg);
    OneMoreStep(w2, TimerEvent, [Opened(1), Failed(1, true), RelistEvent], cfg);
    OneMoreStep(w1, Failed(0, false), [TimerEvent, Opened(1), Failed(1, true), RelistEvent], cfg);
    OneMoreStep(w0, StartCall, [Failed(0, false), TimerEvent, Opened(1), Failed(1, true), RelistEvent], cfg);
  }

  lemma OneMoreStep(w: World, e: Event, es: seq<Event>, cfg: Config)
    requires Enabled(w, e) && Valid(Step(w, e, cfg), es, cfg)
    ensures Valid(w, [e] + es, cfg) && End(w, [e] + es, cfg) == End(Step(w, e, cfg), es, cfg)
  {
    assert ([e] + es)[1..] == es;
  }

  /** Nothing connects between a stop and the next start. */
  lemma {:induction false} NoConnectionWhileStopped(w: World, es: seq<Event>, cfg: Config)
    requires w.k.stopped && Valid(w, es, cfg) && StartCall !in es
    ensures End(w, es, cfg).k.made == w.k.made && End(w, es, cfg).k.stopped
    decreases |es|
  {
    if es != [] {
      assert es[0] in es;
      NoConnectionWhileStopped(Step(w, es[0], cfg), es[1..], cfg);
    }
  }

  /** The ends in a run of events that are not a 410. */
  function Ends(es: seq<Event>): nat {
    if es == [] then 0 else Ends(es[..|es| - 1]) + if es[|es| - 1].Failed? && !es[|es| - 1].gone then 1 else 0
  }

  lemma RowStep(w: World, e: Event, cfg: Config)
    requires Enabled(w, e) && !w.k.stopped && !e.Opened? && !e.StopCall?
    ensures
      var w', ends := Step(w, e, cfg), e.Failed? && !e.gone;
      && !w'.k.stopped && w'.k.failures == w.k.failures + (if ends then 1 else 0)
      && (ends ==> w'.k.timer == Some(RetryDelay(cfg, w'.k.failures)))
  {
  }

  lemma EndsNext(init: seq<Event>, last: Event)
    ensures Ends(init + [last]) == Ends(init) + if last.Failed? && !last.gone then 1 else 0
  {
    var es := init + [last];
    assert es[..|es| - 1] == init;
  }

  /**
   Failures in a row: over events of a running controller with no opening among them, each end that
   is not a 410 counts once and a 410 never does; the retry after the last end waits RetryDelay of
   the count.
   */
  lemma {:induction false} FailuresInARow(w: World, es: seq<Event>, cfg: Config)
    requires Valid(w, es, cfg) && !w.k.stopped
    requires forall e :: e in es ==> !e.Opened? && !e.StopCall?
    ensures var w' := End(w, es, cfg);
      && !w'.k.stopped && w'.k.failures == w.k.failures + Ends(es)
      && (es != [] && es[|es| - 1].Failed? && !es[|es| - 1].gone ==> w'.k.timer == Some(RetryDelay(cfg, w'.k.failures)))
  {
    if es != [] {
      var init, last := es[..|es| - 1], es[|es| - 1];
      assert es == init + [last];
      EndOfPrefix(w, init, last, cfg);
      FailuresInARow(w, init, cfg);
      EndsNext(init, last);
      assert last in es;
      RowStep(End(w, init, cfg), last, cfg);
    }
  }

  lemma {:induction false} EndOfPrefix(w: World, es: seq<Event>, e: Event, cfg: Config)
    requires Valid(w, es + [e], cfg)
    ensures Valid(w, es, cfg) && Enabled(End(w, es, cfg), e)
    ensures End(w, es + [e], cfg) == Step(End(w, es, cfg), e, cfg)
    decreases |es|
  {
    if es == [] {
      assert (es + [e])[1..] == [];
      assert Valid(Step(w, e, cfg), [], cfg);
    } else {
      assert (es + [e])[1..] == es[1..] + [e];
      EndOfPrefix(Step(w, es[0], cfg), es[1..], e, cfg);
    }
  }

  // ------------------------------------------------------------ retry delays

  lemma {:induction false} Pow2Monotone(m: nat, n: nat)
    requires m <= n
    ensures Pow2(m) <= Pow2(n)
  {
    if m < n { Pow2Monotone(m, n - 1); }
  }

  lemma DelayForGrows(c: Config, m: nat, n: nat)
    requires 1 <= m <= n
    ensures DelayFor(c, m) <= DelayFor(c, n) <= c.maxMs
  {
    Pow2Monotone(m - 1, n - 1);
    assert c.baseMs * Pow2(m - 1) <= c.baseMs * Pow2(n - 1);
  }

  /**
   The delays one by one: the first is baseMs, each next one twice the one before, none above maxMs, and
   from the maxFailures-th failure on a minute.
   */
  lemma DelaysDouble(c: Config, n: nat)
    requires n >= 1
    ensures RetryDelay(c, n) ==
      if n >= c.maxFailures then 60000
      else if n == 1 then (if c.baseMs <= c.maxMs then c.baseMs else c.maxMs)
      else
        var twice := 2 * RetryDelay(c, n - 1);
        if twice <= c.maxMs then twice else c.maxMs
  {
    if 1 < n < c.maxFailures {
      var p := Pow2(n - 2);
      assert c.baseMs * Pow2(n - 1) == 2 * (c.baseMs * p);
    }
  }

  ghost predicate NonDecreasing(c: Config) {
    forall m: nat, n: nat :: 1 <= m <= n ==> RetryDelay(c, m) <= RetryDelay(c, n)
  }

  ghost predicate Capped(c: Config) {
    forall n: nat :: n >= 1 ==> RetryDelay(c, n) <= c.maxMs
  }

  /**
   In a row of failures the retry delays never shrink exactly when the last backoff before
   degradation is at most the fixed degraded delay, and stay at or below maxMs exactly when maxMs
   is at least that delay. The defaults (1000, 60000, 5) meet both.
   */
  lemma RetryDelaysGrow(c: Config)
    ensures NonDecreasing(c) <==> c.maxFailures <= 1 || RetryDelay(c, c.maxFailures - 1) <= 60000
    ensures Capped(c) <==> 60000 <= c.maxMs
    ensures c == Config(1000, 60000, 5) ==> NonDecreasing(c) && Capped(c)
  {
    forall m: nat, n: nat | 1 <= m <= n ensures DelayFor(c, m) <= DelayFor(c, n) <= c.maxMs {
      DelayForGrows(c, m, n);
    }
    if c.maxFailures > 1 {
      assert RetryDelay(c, c.maxFailures - 1) == DelayFor(c, c.maxFailures - 1);
      assert RetryDelay(c, c.maxFailures) == DEGRADED_RETRY_MS;
      if DelayFor(c, c.maxFailures - 1) <= DEGRADED_RETRY_MS {
        forall m: nat, n: nat | 1 <= m <= n ensures RetryDelay(c, m) <= RetryDelay(c, n) {
          if m < c.maxFailures { assert DelayFor(c, m) <= DelayFor(c, c.maxFailures - 1); }
        }
      }
    }
    var big := if c.maxFailures >= 1 then c.maxFailures else 1;
    assert RetryDelay(c, big) == DEGRADED_RETRY_MS;
    if c == Config(1000, 60000, 5) {
      assert Pow2(3) == 8;
    }
  }
}
