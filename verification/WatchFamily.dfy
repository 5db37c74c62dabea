/**
 The multiplexed watch channel of src/stores/cluster/watch.js on top of the reconnect controller:
 per-resource states, resources dropped for lack of permission, and error lines in the stream.
 `configs` maps each watch key to the query key of the cache it feeds.
 */
module WatchFamily {
  import opened ClusterWatch
  import opened Maps
  import opened Wrappers

  /**
   Besides the controller: watchStates, droppedWatchKeys, familyChannelEnded, and the resources the
   latest connection asked for.
   */
  datatype Family = Family(k: Ctl, states: map<string, WatchState>, dropped: set<string>, ended: bool,
    requested: set<string>)

  type Configs = map<string, string>

  function Active(configs: Configs, dropped: set<string>): set<string> { configs.Keys - dropped }

  /** onState: every active key takes the controller's state. */
  ghost function Publish(f: Family, s: WatchState, configs: Configs): Family {
    f.(states := f.states + Constant(Active(configs, f.dropped), s))
  }

  /** The connect callback, when the step made a connection. */
  function Reconnect(f: Family, before: Ctl, configs: Configs): Family {
    if f.k.made > before.made then f.(ended := false, requested := Active(configs, f.dropped)) else f
  }

  ghost function AfterOpen(f: Family, configs: Configs): Family {
    if f.k.stopped then f else Publish(f.(k := OnOpen(f.k)), Live, configs)
  }

  ghost function AfterFailure(f: Family, gone: bool, c: Config, configs: Configs): Family {
    if f.k.stopped then f
    else
      var k' := OnFailure(f.k, gone, c);
      Publish(f.(k := k'), k'.state, configs)
  }

  ghost function StartFamily(f: Family, configs: Configs): Family {
    if !f.k.stopped then f
    else Reconnect(Publish(f.(k := Start(f.k)), WatchState.Reconnecting, configs), f.k, configs)
  }

  /** stopWorkloadFamilyWatch: the sticky drops are forgotten. */
  ghost function StopFamily(f: Family, configs: Configs): Family {
    Publish(f.(k := Stop(f.k)), Off, configs).(dropped := {})
  }

  function Timer(f: Family, configs: Configs): Family {
    Reconnect(f.(k := TimerFires(f.k)), f.k, configs)
  }

  function Relisted(f: Family, configs: Configs): Family
    requires f.k.relists > 0
  {
    Reconnect(f.(k := RelistDone(f.k)), f.k, configs)
  }

  predicate Denied(code: int) { code == 401 || code == 403 }

  /** handleChannelLine on an error line of resource `key`. */
  ghost function ErrorLine(f: Family, key: string, code: int, c: Config, configs: Configs): Family {
    if !Handled(f, key, configs) then f
    else
      var f1 := if Denied(code) then f.(ended := true, dropped := f.dropped + {key}, states := f.states[key := Off])
        else f.(ended := true);
      var f2 := f1.(k := f1.k.(aborted := if f1.k.handle.Some? then f1.k.aborted + {f1.k.handle.value}
        else f1.k.aborted));
      AfterFailure(f2, code == 410 || Denied(code), c, configs)
  }

  /** A line that is acted on: the first error line of this connection that names a resource of the family. */
  predicate Handled(f: Family, key: string, configs: Configs) { !f.ended && key in configs }

  /**
   The whole effect of an error line. ndjsonStream (src/api/client.js) leaves its read loop once the
   line handler has aborted the stream, and then calls onClose: one more failure without a status.
   Lines after the first are read but not acted on, so that close comes once.
   */
  ghost function StreamErrorLine(f: Family, key: string, code: int, c: Config, configs: Configs): Family {
    var f' := ErrorLine(f, key, code, c, configs);
    if Handled(f, key, configs) then AfterFailure(f', false, c, configs) else f'
  }

  function StatesOf(f: Family, query: string, configs: Configs): set<WatchState>
    requires configs.Keys <= f.states.Keys
  {
    set k | k in Active(configs, f.dropped) && configs[k] == query :: f.states[k]
  }

  /** watchStateOf: the state of a query key is computed from its active watches. */
  function WatchStateOf(f: Family, query: string, configs: Configs): WatchState
    requires configs.Keys <= f.states.Keys
  {
    var ss := StatesOf(f, query, configs);
    if ss == {} || (forall s :: s in ss ==> s == Off) then Off
    else if Degraded in ss then Degraded
    else if WatchState.Reconnecting in ss then WatchState.Reconnecting
    else if forall s :: s in ss ==> s == Live then Live
    else Off
  }

  // ------------------------------------------------------------ the channel object

  class FamilyChannel {
    const controller: WatchController
    const configs: Configs
    var watchStates: map<string, WatchState>
    var droppedWatchKeys: set<string>
    var familyChannelEnded: bool
    var requested: set<string>

    function View(): Family
      reads this, controller
    {
      Family(controller.View(), watchStates, droppedWatchKeys, familyChannelEnded, requested)
    }

    constructor (controller: WatchController, configs: Configs)
      ensures this.controller == controller && this.configs == configs
      ensures View() == Family(controller.View(), Constant(configs.Keys, Off), {}, false, {})
    {
      this.controller, this.configs := controller, configs;
      watchStates, droppedWatchKeys, familyChannelEnded, requested := map[], {}, false, {};
      new;
      OnState(Off);
      assert watchStates == Constant(configs.Keys, Off);
    }

    /** The onState callback. */
    method OnState(s: WatchState)
      modifies this`watchStates
      ensures View() == Publish(old(View()), s, configs)
    {
      var todo := Active(configs, droppedWatchKeys);
      ghost var all := todo;
      while todo != {}
        invariant todo <= all
        invariant watchStates.Keys == old(watchStates).Keys + (all - todo)
        invariant forall k :: k in watchStates ==> watchStates[k] == if k in all - todo then s else old(watchStates)[k]
        decreases todo
      {
        var key :| key in todo;
        watchStates := watchStates[key := s];
        todo := todo - {key};
      }
      assert watchStates == old(watchStates) + Constant(all, s);
    }

    /** The connect callback. */
    method OnConnect()
      modifies this`familyChannelEnded, this`requested
      ensures View() == old(View()).(ended := false, requested := Active(configs, droppedWatchKeys))
    {
      familyChannelEnded := false;
      requested := Active(configs, droppedWatchKeys);
    }

    method HandleOpened()
      modifies this`watchStates, controller
      ensures View() == AfterOpen(old(View()), configs)
    {
      if controller.stopped { return; }
      controller.HandleOpen();
      OnState(Live);
    }

    method HandleFailed(gone: bool)
      modifies this`watchStates, controller
      ensures View() == AfterFailure(old(View()), gone, controller.config, configs)
    {
      if controller.stopped { return; }
      controller.HandleFailure(gone);
      OnState(controller.state);
    }

    method StartWatch()
      modifies this, controller
      ensures View() == StartFamily(old(View()), configs)
    {
      if !controller.stopped { return; }
      controller.DoStart();
      OnState(WatchState.Reconnecting);
      OnConnect();
    }

    method StopWatch()
      modifies this, controller
      ensures View() == StopFamily(old(View()), configs)
    {
      controller.DoStop();
      OnState(Off);
      droppedWatchKeys := {};
    }

    method HandleErrorLine(key: string, code: int)
      modifies this, controller
      ensures View() == ErrorLine(old(View()), key, code, controller.config, configs)
    {
      if familyChannelEnded || key !in configs { return; }
      familyChannelEnded := true;
      if Denied(code) {
        droppedWatchKeys := droppedWatchKeys + {key};
        watchStates := watchStates[key := Off];
      }
      controller.AbortHandle();
      HandleFailed(code == 410 || Denied(code));
    }
  }

  // ------------------------------------------------------------ what every event keeps

  datatype Event =
    | EStart | EStop | EOpened | EFailed(gone: bool) | ETimer | ERelisted
    | ELine(key: string, code: int)

  predicate Enabled(f: Family, e: Event) {
    (e.ERelisted? ==> f.k.relists > 0) && (e.ETimer? ==> f.k.timer.Some?)
  }

  ghost function Step(f: Family, e: Event, c: Config, configs: Configs): Family
    requires Enabled(f, e)
  {
    match e
    case EStart => StartFamily(f, configs)
    case EStop => StopFamily(f, configs)
    case EOpened => AfterOpen(f, configs)
    case EFailed(gone) => AfterFailure(f, gone, c, configs)
    case ETimer => Timer(f, configs)
    case ERelisted => Relisted(f, configs)
    case ELine(key, code) => StreamErrorLine(f, key, code, c, configs)
  }

  /** Active keys show the controller's state, dropped ones are off. */
  ghost predicate Inv(f: Family, configs: Configs) {
    && f.states.Keys == configs.Keys
    && f.dropped <= configs.Keys
    && (f.k.state.Off? <==> f.k.stopped)
    && forall k :: k in configs ==> f.states[k] == if k in f.dropped then Off else f.k.state
  }

  lemma FailedInv(f: Family, gone: bool, c: Config, configs: Configs)
    requires Inv(f, configs)
    ensures Inv(AfterFailure(f, gone, c, configs), configs)
    ensures AfterFailure(f, gone, c, configs).dropped == f.dropped
  {
  }

  lemma ErrorLineInv(f: Family, key: string, code: int, c: Config, configs: Configs)
    requires Inv(f, configs)
    ensures Inv(ErrorLine(f, key, code, c, configs), configs)
    ensures f.dropped <= ErrorLine(f, key, code, c, configs).dropped
  {
  }

  lemma StepInv(f: Family, e: Event, c: Config, configs: Configs)
    requires Inv(f, configs) && Enabled(f, e)
    ensures Inv(Step(f, e, c, configs), configs)
    ensures !e.EStop? ==> f.dropped <= Step(f, e, c, configs).dropped
  {
    if e.ELine? {
      ErrorLineInv(f, e.key, e.code, c, configs);
      FailedInv(ErrorLine(f, e.key, e.code, c, configs), false, c, configs);
    }
  }

  ghost predicate Valid(f: Family, es: seq<Event>, c: Config, configs: Configs)
    decreases |es|
  {
    es != [] ==> Enabled(f, es[0]) && Valid(Step(f, es[0], c, configs), es[1..], c, configs)
  }

  ghost function End(f: Family, es: seq<Event>, c: Config, configs: Configs): Family
    requires Valid(f, es, c, configs)
    decreases |es|
  {
    if es == [] then f else End(Step(f, es[0], c, configs), es[1..], c, configs)
  }

  ghost function Fresh(configs: Configs): Family {
    Family(Initial, Constant(configs.Keys, Off), {}, false, {})
  }

  lemma {:induction false} RunInv(f: Family, es: seq<Event>, c: Config, configs: Configs)
    requires Inv(f, configs) && Valid(f, es, c, configs)
    ensures Inv(End(f, es, c, configs), configs)
    decreases |es|
  {
    if es != [] {
      StepInv(f, es[0], c, configs);
      RunInv(Step(f, es[0], c, configs), es[1..], c, configs);
    }
  }

  /**
   After any run, the state shown for a query key is the controller's state if some watch of that
   key is still allowed, and off if all of them were denied: a denied watch never holds the others
   back, and the others never vouch for it.
   */
  lemma {:induction false} ShownState(es: seq<Event>, c: Config, configs: Configs, query: string)
    requires Valid(Fresh(configs), es, c, configs)
    ensures var f := End(Fresh(configs), es, c, configs);
      && f.states.Keys == configs.Keys
      && WatchStateOf(f, query, configs) ==
        if exists k :: k in configs && k !in f.dropped && configs[k] == query then f.k.state else Off
  {
    RunInv(Fresh(configs), es, c, configs);
    var f := End(Fresh(configs), es, c, configs);
    var ss := StatesOf(f, query, configs);
    assert forall s :: s in ss ==> s == f.k.state;
    if k :| k in configs && k !in f.dropped && configs[k] == query {
      assert f.states[k] in ss;
    }
  }

  /** The active watches of a query key. */
  predicate Counts(f: Family, query: string, configs: Configs, k: string) {
    k in configs && configs[k] == query && k !in f.dropped
  }

  /**
   How states mix, whatever they are: one degraded watch makes the key degraded, else one reconnecting makes
   it reconnecting, else it is live when some watch is and none is off, and off otherwise.
   */
  lemma MixedStates(f: Family, query: string, configs: Configs)
    requires configs.Keys <= f.states.Keys
    ensures WatchStateOf(f, query, configs) ==
      if exists k :: Counts(f, query, configs, k) && f.states[k] == Degraded then Degraded
      else if exists k :: Counts(f, query, configs, k) && f.states[k] == WatchState.Reconnecting
      then WatchState.Reconnecting
      else if (exists k :: Counts(f, query, configs, k))
        && forall k :: Counts(f, query, configs, k) ==> f.states[k] == Live then Live
      else Off
  {
    var ss := StatesOf(f, query, configs);
    forall k | Counts(f, query, configs, k) ensures f.states[k] in ss {
    }
    forall s | s in ss ensures exists k :: Counts(f, query, configs, k) && f.states[k] == s {
      var k :| k in Active(configs, f.dropped) && configs[k] == query && f.states[k] == s;
      assert Counts(f, query, configs, k);
    }
  }

  /** Only a new connection changes the set of requested resources, and it asks for the active ones. */
  lemma ConnectStep(f: Family, e: Event, c: Config, configs: Configs)
    requires Enabled(f, e)
    ensures var f' := Step(f, e, c, configs);
      && f'.k.made >= f.k.made
      && (f'.k.made == f.k.made ==> f'.requested == f.requested)
      && (f'.k.made > f.k.made ==> f'.requested == Active(configs, f'.dropped) && !f'.ended)
  {
  }

  /** A running channel connects when its timer fires and when its relist ends, and asks for what is not denied. */
  lemma ConnectsAgain(f: Family, c: Config, configs: Configs)
    requires !f.k.stopped
    ensures
      var t := Timer(f, configs);
      t.k.made == f.k.made + 1 && t.k.timer.None? && !t.ended && t.requested == configs.Keys - f.dropped
    ensures f.k.relists > 0 ==>
      var r := Relisted(f, configs);
      && r.k.made == f.k.made + 1 && r.k.relists == f.k.relists - 1 && !r.ended
      && r.requested == configs.Keys - f.dropped
  {
  }

  /** Stopping forgets the denials: the next start asks for everything again. */
  lemma StopForgetsDenials(f: Family, configs: Configs)
    ensures
      var g := StartFamily(StopFamily(f, configs), configs);
      g.dropped == {} && g.requested == configs.Keys && g.k.made == f.k.made + 1 && !g.k.stopped && !g.ended
  {
  }

  /** A denied key stays out of every later request until the family watch is stopped. */
  lemma {:induction false} DeniedStaysOut(f: Family, es: seq<Event>, c: Config, configs: Configs, key: string)
    requires Inv(f, configs) && Valid(f, es, c, configs) && EStop !in es
    requires key in f.dropped
    ensures var f' := End(f, es, c, configs);
      key in f'.dropped && (f'.k.made > f.k.made ==> key !in f'.requested)
    decreases |es|
  {
    if es != [] {
      assert es[0] in es;
      StepInv(f, es[0], c, configs);
      ConnectStep(f, es[0], c, configs);
      var f1 := Step(f, es[0], c, configs);
      DeniedStaysOut(f1, es[1..], c, configs, key);
      RequestedOnlyOnConnect(f1, es[1..], c, configs);
    }
  }

  lemma {:induction false} RequestedOnlyOnConnect(f: Family, es: seq<Event>, c: Config, configs: Configs)
    requires Valid(f, es, c, configs)
    ensures var f' := End(f, es, c, configs);
      f'.k.made >= f.k.made && (f'.k.made == f.k.made ==> f'.requested == f.requested)
    decreases |es|
  {
    if es != [] {
      ConnectStep(f, es[0], c, configs);
      RequestedOnlyOnConnect(Step(f, es[0], c, configs), es[1..], c, configs);
    }
  }

  /**
   The handler reports a lost or denied resource as a 410, which is documented not to count as a
   failure, and that holds of the handler alone. But the aborted stream still reports its close: over
   the whole of the line no failure is counted exactly when the line is not acted on or the channel is
   stopped. Any other such line counts one and arms a backoff timer beside the relist.
   */
  lemma DeniedLineCountsUnlessIgnored(f: Family, key: string, code: int, c: Config, configs: Configs)
    requires code == 410 || Denied(code)
    ensures ErrorLine(f, key, code, c, configs).k.failures == f.k.failures
    ensures var f' := StreamErrorLine(f, key, code, c, configs);
      && (f'.k.failures == f.k.failures <==> !Handled(f, key, configs) || f.k.stopped)
      && (f'.k.failures != f.k.failures ==>
            && f'.k.failures == f.k.failures + 1
            && f'.k.relists == f.k.relists + 1
            && f'.k.timer == Some(RetryDelay(c, f.k.failures + 1)))
  {
  }

  /**
   Any other error code is one loss of the connection, but both the handler's own report and the
   stream's close count: a line that is acted on counts two failures, so half of maxFailures degrade it.
   */
  lemma OtherLineCountsTwice(f: Family, key: string, code: int, c: Config, configs: Configs)
    requires code != 410 && !Denied(code)
    ensures
      var f', lost := StreamErrorLine(f, key, code, c, configs), Handled(f, key, configs) && !f.k.stopped;
      && f'.k.failures == f.k.failures + (if lost then 2 else 0)
      && (lost ==> f'.k.timer == Some(RetryDelay(c, f.k.failures + 2)))
      && (lost ==> (f'.k.state.Degraded? <==> f.k.failures + 2 >= c.maxFailures))
  {
  }

  /** The end of that relist reconnects without the denied resource and clears the timer; the failure stays counted. */
  lemma RelistClearsTheTimer(f: Family, key: string, code: int, c: Config, configs: Configs)
    requires Denied(code) && Handled(f, key, configs) && !f.k.stopped
    ensures var f' := StreamErrorLine(f, key, code, c, configs);
      && f'.dropped == f.dropped + {key}
      && f'.k.relists == f.k.relists + 1
      && var f'' := Relisted(f', configs);
        && f''.k.timer.None? && f''.k.failures == f.k.failures + 1
        && f''.k.made == f.k.made + 1 && f''.requested == Active(configs, f.dropped + {key})
  {
  }

  /**
   The answers 401 and 403, and no other, drop the resource a line names, and it is shown as off; 401, 403
   and 410 ask for one relist, any other code for none. A line that comes second or names no resource of
   the family does nothing.
   */
  lemma CodesOfALine(f: Family, key: string, code: int, c: Config, configs: Configs, k: string)
    ensures
      var f', heard := StreamErrorLine(f, key, code, c, configs), !f.ended && key in configs;
      && (!heard ==> f' == f)
      && (heard ==> f'.ended)
      && (k in f'.dropped <==> k in f.dropped || (heard && k == key && (code == 401 || code == 403)))
      && (f'.k.relists == f.k.relists + if heard && !f.k.stopped && code in {401, 403, 410} then 1 else 0)
      && (heard && (code == 401 || code == 403) ==> key in f'.states && f'.states[key] == Off)
      && (heard && f.k.handle.Some? ==> f.k.handle.value in f'.k.aborted)
  {
  }

  lemma ThreeSteps(f: Family, d: Event, e: Event, g: Event, c: Config, configs: Configs)
    requires Enabled(f, d) && Enabled(Step(f, d, c, configs), e) &&
      Enabled(Step(Step(f, d, c, configs), e, c, configs), g)
    ensures Valid(f, [d, e, g], c, configs)
    ensures End(f, [d, e, g], c, configs) == Step(Step(Step(f, d, c, configs), e, c, configs), g, c, configs)
  {
    var f1 := Step(f, d, c, configs);
    var f2 := Step(f1, e, c, configs);
    var f3 := Step(f2, g, c, configs);
    assert [d, e, g][1..] == [e, g] && [e, g][1..] == [g] && [g][1..] == [];
    assert Valid(f3, [], c, configs) && End(f3, [], c, configs) == f3;
    assert Valid(f2, [g], c, configs) && End(f2, [g], c, configs) == f3;
    assert Valid(f1, [e, g], c, configs) && End(f1, [e, g], c, configs) == f3;
  }

  function DeniedRun(key: string): seq<Event> { [EStart, EOpened, ELine(key, 403)] }

  ghost function OpenChannel(configs: Configs): Family { AfterOpen(StartFamily(Fresh(configs), configs), configs) }

  lemma DeniedRunEnds(configs: Configs, key: string, c: Config)
    ensures Valid(Fresh(configs), DeniedRun(key), c, configs)
    ensures End(Fresh(configs), DeniedRun(key), c, configs) ==
      StreamErrorLine(OpenChannel(configs), key, 403, c, configs)
  {
    ThreeSteps(Fresh(configs), EStart, EOpened, ELine(key, 403), c, configs);
  }

  lemma OpenedChannel(configs: Configs)
    ensures var f := OpenChannel(configs);
      !f.k.stopped && !f.ended && f.k.failures == 0 && f.k.made == 1 && f.k.relists == 0 && f.dropped == {}
  {
  }

  /**
   A live channel whose gateway answers 403 for one resource: one failure is counted, with a relist
   under way and a timer set.
   */
  lemma DeniedLineIsCountedAfterAll(configs: Configs, key: string, c: Config)
    requires key in configs
    ensures Valid(Fresh(configs), DeniedRun(key), c, configs)
    ensures var f := End(Fresh(configs), DeniedRun(key), c, configs);
      f.k.failures == 1 && f.k.relists == 1 && f.k.timer == Some(RetryDelay(c, 1)) && f.dropped == {key}
  {
    DeniedRunEnds(configs, key, c);
    OpenedChannel(configs);
    DeniedLineCountsUnlessIgnored(OpenChannel(configs), key, 403, c, configs);
    RelistClearsTheTimer(OpenChannel(configs), key, 403, c, configs);
  }
}
