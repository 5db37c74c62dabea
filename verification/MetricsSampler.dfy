/**
 The shared metrics sampler of src/stores/cluster/metrics.js with the cluster switches of
 src/stores/cluster/clusters.js. A tick is suspended while it awaits the metrics; it is modelled
 by the epoch it captured, and by the cluster that was current when it began.
 */
module MetricsSampler {
  import opened Wrappers
  import opened Seqs
  import opened MetricsWindow

  /** What localStorage holds for a cluster: its CPU and its memory samples. */
  datatype Stored = Stored(cpu: seq<Sample>, mem: seq<Sample>)

  /** A tick at its await. `cluster` is what was current when it began; the code does not keep it. */
  datatype Pending = Pending(epoch: nat, cluster: string)

  /** current is the empty string while no cluster is connected. */
  datatype Sampler = Sampler(
    cpu: seq<Sample>, mem: seq<Sample>, lastRefresh: Option<int>, consumers: nat, timer: bool,
    epoch: nat, hold: bool, windowCluster: Option<string>, current: string,
    storage: map<string, Stored>, pending: Option<Pending>)

  function Persist(s: Sampler): Sampler {
    if s.current == "" then s
    else s.(storage := s.storage[s.current := Stored(ValidOnly(s.cpu), ValidOnly(s.mem))])
  }

  /** What is saved for a cluster. */
  function SavedOf(storage: map<string, Stored>, cluster: string): Stored {
    if cluster != "" && cluster in storage then storage[cluster] else Stored([], [])
  }

  /** reloadMetricsWindow */
  function Reload(s: Sampler, now: int): Sampler {
    if s.windowCluster == Some(s.current) then s
    else
      var raw := SavedOf(s.storage, s.current);
      s.(epoch := s.epoch + 1, cpu := RestoreSamples(raw.cpu, now), mem := RestoreSamples(raw.mem, now),
         lastRefresh := None, windowCluster := Some(s.current))
  }

  /** metricsTick up to its await. */
  function TickBegin(s: Sampler, hidden: bool): Sampler {
    if hidden || s.pending.Some? || s.hold then s else s.(pending := Some(Pending(s.epoch, s.current)))
  }

  function Pushed(samples: seq<Sample>, v: Option<int>, now: int, cluster: string): seq<Sample> {
    if v.None? then samples else PushSample(samples, Sample(now, v.value, true, cluster), now)
  }

  /** metricsTick after its await: cpu and mem are what the refresh computed. */
  function TickEnd(s: Sampler, now: int, cpu: Option<int>, mem: Option<int>): Sampler
    requires s.pending.Some?
  {
    var p, s1 := s.pending.value, s.(pending := None);
    if p.epoch != s.epoch then s1
    else
      var s2 := s1.(cpu := Pushed(s.cpu, cpu, now, p.cluster), mem := Pushed(s.mem, mem, now, p.cluster));
      if cpu.None? && mem.None? then s2 else Persist(s2.(lastRefresh := Some(now)))
  }

  function StartSampling(s: Sampler, now: int, hidden: bool): Sampler {
    var s1 := s.(consumers := s.consumers + 1);
    if s1.consumers == 1 then TickBegin(Reload(s1, now), hidden).(timer := true) else s1
  }

  function StopSampling(s: Sampler): Sampler {
    var n := if s.consumers > 0 then s.consumers - 1 else 0;
    s.(consumers := n, timer := s.timer && n > 0)
  }

  /** setConnectedCluster, as far as the sampler sees it. */
  function Connected(s: Sampler, name: string, now: int): Sampler { Reload(s.(current := name), now) }

  class MetricsSampler {
    var cpuSamples: seq<Sample>
    var memSamples: seq<Sample>
    var lastRefresh: Option<int>
    var consumers: nat
    var timer: bool
    var epoch: nat
    var hold: bool
    var windowCluster: Option<string>
    var currentCluster: string
    var storage: map<string, Stored>
    var pending: Option<Pending>

    function View(): Sampler
      reads this
    {
      Sampler(cpuSamples, memSamples, lastRefresh, consumers, timer, epoch, hold, windowCluster, currentCluster,
        storage, pending)
    }

    constructor (storage: map<string, Stored>)
      ensures View() == Sampler([], [], None, 0, false, 0, false, None, "", storage, None)
    {
      cpuSamples, memSamples, lastRefresh, consumers, timer := [], [], None, 0, false;
      epoch, hold, windowCluster, currentCluster, pending := 0, false, None, "", None;
      this.storage := storage;
    }

    method PersistWindow()
      modifies this`storage
      ensures View() == Persist(old(View()))
    {
      if currentCluster == "" { return; }
      storage := storage[currentCluster := Stored(ValidOnly(cpuSamples), ValidOnly(memSamples))];
    }

    method SetWindows(cpu: seq<Sample>, mem: seq<Sample>)
      modifies this`cpuSamples, this`memSamples
      ensures View() == old(View()).(cpu := cpu, mem := mem)
    {
      cpuSamples := cpu;
      memSamples := mem;
    }

    method ReloadWindow(now: int)
      modifies this
      ensures View() == Reload(old(View()), now)
    {
      if windowCluster == Some(currentCluster) { return; }
      epoch := epoch + 1;
      var raw := SavedOf(storage, currentCluster);
      SetWindows(RestoreSamples(raw.cpu, now), RestoreSamples(raw.mem, now));
      lastRefresh := None;
      windowCluster := Some(currentCluster);
    }

    method BeginTick(hidden: bool)
      modifies this`pending
      ensures View() == TickBegin(old(View()), hidden)
    {
      if hidden || pending.Some? || hold { return; }
      pending := Some(Pending(epoch, currentCluster));
    }

    method EndTick(now: int, cpu: Option<int>, mem: Option<int>)
      requires pending.Some?
      modifies this
      ensures View() == TickEnd(old(View()), now, cpu, mem)
    {
      var p := pending.value;
      pending := None;
      if p.epoch != epoch { return; }
      Push(now, cpu, mem, p.cluster);
      if cpu.Some? || mem.Some? {
        lastRefresh := Some(now);
        PersistWindow();
      }
    }

    method Push(now: int, cpu: Option<int>, mem: Option<int>, cluster: string)
      modifies this`cpuSamples, this`memSamples
      ensures View() == old(View()).(cpu := Pushed(old(cpuSamples), cpu, now, cluster),
        mem := Pushed(old(memSamples), mem, now, cluster))
    {
      if cpu.Some? { cpuSamples := PushSample(cpuSamples, Sample(now, cpu.value, true, cluster), now); }
      if mem.Some? { memSamples := PushSample(memSamples, Sample(now, mem.value, true, cluster), now); }
    }

    method Start(now: int, hidden: bool)
      modifies this
      ensures View() == StartSampling(old(View()), now, hidden)
    {
      consumers := consumers + 1;
      if consumers == 1 {
        ReloadWindow(now);
        BeginTick(hidden);
        timer := true;
      }
    }

    method Stop()
      modifies this`consumers, this`timer
      ensures View() == StopSampling(old(View()))
    {
      if consumers > 0 { consumers := consumers - 1; }
      if consumers == 0 { timer := false; }
    }

    method SetConnectedCluster(name: string, now: int)
      modifies this
      ensures View() == Connected(old(View()), name, now)
    {
      currentCluster := name;
      ReloadWindow(now);
    }
  }

  // ------------------------------------------------------------ all interleavings

  /**
   A cluster switch is SetHold(true), later Reloaded and Connect, later SetHold(false); other events
   may come between any two. Foreign is another browser tab saving a window of its own.
   */
  datatype Event =
    | BeginE(hidden: bool)
    | EndE(now: int, cpu: Option<int>, mem: Option<int>)
    | StartE(now: int, hidden: bool)
    | StopE
    | SetHold(on: bool)
    | Reloaded(now: int)
    | Connect(name: string, now: int)
    | Foreign(name: string, stored: Stored)

  predicate Enabled(s: Sampler, e: Event) {
    && (e.EndE? ==> s.pending.Some?)
  }

  ghost predicate HonestEvent(e: Event) {
    e.Foreign? ==> Of(e.stored.cpu, e.name) && Of(e.stored.mem, e.name)
  }

  function Step(s: Sampler, e: Event): Sampler
    requires Enabled(s, e)
  {
    match e
    case BeginE(hidden) => TickBegin(s, hidden)
    case EndE(now, cpu, mem) => TickEnd(s, now, cpu, mem)
    case StartE(now, hidden) => StartSampling(s, now, hidden)
    case StopE => StopSampling(s)
    case SetHold(on) => s.(hold := on)
    case Reloaded(now) => Reload(s, now)
    case Connect(name, now) => Connected(s, name, now)
    case Foreign(name, stored) => s.(storage := s.storage[name := stored])
  }

  ghost predicate StorageOk(storage: map<string, Stored>) {
    forall c :: c in storage ==> Of(storage[c].cpu, c) && Of(storage[c].mem, c)
  }

  ghost predicate Inv(s: Sampler) {
    && Of(s.cpu, s.current) && Of(s.mem, s.current)
    && StorageOk(s.storage)
    && s.windowCluster.GetOr("") == s.current
    && (s.pending.Some? ==> s.pending.value.epoch <= s.epoch)
    && (s.pending.Some? && s.pending.value.epoch == s.epoch ==> s.pending.value.cluster == s.current)
  }

  lemma ReloadInv(s: Sampler, now: int)
    requires StorageOk(s.storage)
    requires s.pending.Some? ==> s.pending.value.epoch <= s.epoch
    requires s.windowCluster == Some(s.current) ==> Inv(s)
    ensures Inv(Reload(s, now))
  {
  }

  lemma ConnectedInv(s: Sampler, name: string, now: int)
    requires Inv(s)
    ensures Inv(Connected(s, name, now))
  {
    ReloadInv(s.(current := name), now);
  }

  lemma PushedOf(samples: seq<Sample>, v: Option<int>, now: int, cluster: string)
    requires Of(samples, cluster)
    ensures Of(Pushed(samples, v, now, cluster), cluster)
  {
    if v.Some? { PushOf(samples, Sample(now, v.value, true, cluster), now, cluster); }
  }

  lemma PersistInv(s: Sampler)
    requires Inv(s)
    ensures Inv(Persist(s))
  {
    assert Of(ValidOnly(s.cpu), s.current) && Of(ValidOnly(s.mem), s.current);
    var after := s.storage[s.current := Stored(ValidOnly(s.cpu), ValidOnly(s.mem))];
    forall c | c in after ensures Of(after[c].cpu, c) && Of(after[c].mem, c) {
      assert c == s.current || c in s.storage;
    }
  }

  /** New windows of the current cluster's samples, with the tick gone. */
  lemma WindowsInv(s: Sampler, cpu: seq<Sample>, mem: seq<Sample>, refresh: Option<int>)
    requires Inv(s) && Of(cpu, s.current) && Of(mem, s.current)
    ensures Inv(s.(pending := None, cpu := cpu, mem := mem, lastRefresh := refresh))
  {
  }

  lemma TickEndInv(s: Sampler, now: int, cpu: Option<int>, mem: Option<int>)
    requires Inv(s) && s.pending.Some?
    ensures Inv(TickEnd(s, now, cpu, mem))
  {
    var p := s.pending.value;
    if p.epoch != s.epoch {
      WindowsInv(s, s.cpu, s.mem, s.lastRefresh);
    } else {
      var cpus, mems := Pushed(s.cpu, cpu, now, p.cluster), Pushed(s.mem, mem, now, p.cluster);
      PushedOf(s.cpu, cpu, now, s.current);
      PushedOf(s.mem, mem, now, s.current);
      var refresh := if cpu.None? && mem.None? then s.lastRefresh else Some(now);
      WindowsInv(s, cpus, mems, refresh);
      PersistInv(s.(pending := None, cpu := cpus, mem := mems, lastRefresh := refresh));
    }
  }

  /** Events that touch neither windows, storage nor clusters, and start a tick only in the present epoch. */
  lemma SameWindowsInv(s: Sampler, s': Sampler)
    requires Inv(s)
    requires s'.cpu == s.cpu && s'.mem == s.mem && s'.storage == s.storage && s'.current == s.current
    requires s'.windowCluster == s.windowCluster && s'.epoch == s.epoch
    requires s'.pending == s.pending || s'.pending == Some(Pending(s.epoch, s.current))
    ensures Inv(s')
  {
  }

  lemma TickBeginInv(s: Sampler, hidden: bool)
    requires Inv(s)
    ensures Inv(TickBegin(s, hidden).(timer := true))
  {
    SameWindowsInv(s, TickBegin(s, hidden).(timer := true));
  }

  lemma StartInv(s: Sampler, now: int, hidden: bool)
    requires Inv(s)
    ensures Inv(StartSampling(s, now, hidden))
  {
    var s1 := s.(consumers := s.consumers + 1);
    SameWindowsInv(s, s1);
    var s2 := Reload(s1, now);
    assert Inv(s2) by { ReloadInv(s1, now); }
    var s3 := TickBegin(s2, hidden).(timer := true);
    assert Inv(s3) by { TickBeginInv(s2, hidden); }
    assert StartSampling(s, now, hidden) == if s1.consumers == 1 then s3 else s1;
  }

  lemma StepInv(s: Sampler, e: Event)
    requires Inv(s) && Enabled(s, e) && HonestEvent(e)
    ensures Inv(Step(s, e))
  {
    match e
    case EndE(now, cpu, mem) => TickEndInv(s, now, cpu, mem);
    case Connect(name, now) => ConnectedInv(s, name, now);
    case StartE(now, hidden) => StartInv(s, now, hidden);
    case Reloaded(now) => ReloadInv(s, now);
    case Foreign(_, _) =>
    case _ => SameWindowsInv(s, Step(s, e));
  }

  predicate Valid(s: Sampler, es: seq<Event>)
    decreases |es|
  {
    es != [] ==> Enabled(s, es[0]) && Valid(Step(s, es[0]), es[1..])
  }

  function End(s: Sampler, es: seq<Event>): Sampler
    requires Valid(s, es)
    decreases |es|
  {
    if es == [] then s else End(Step(s, es[0]), es[1..])
  }

  lemma {:induction false} RunInv(s: Sampler, es: seq<Event>)
    requires Inv(s) && Valid(s, es) && forall e :: e in es ==> HonestEvent(e)
    ensures Inv(End(s, es))
    decreases |es|
  {
    if es != [] {
      StepInv(s, es[0]);
      RunInv(Step(s, es[0]), es[1..]);
    }
  }

  lemma BothOf(stored: Stored, cluster: string)
    requires forall x :: x in stored.cpu + stored.mem ==> x.origin == cluster
    ensures Of(stored.cpu, cluster) && Of(stored.mem, cluster)
  {
    assert forall x :: x in stored.cpu || x in stored.mem ==> x in stored.cpu + stored.mem;
  }

  /**
   In every interleaving of suspended ticks, cluster switches there and back, and consumers coming
   and going: each sample in the window belongs to the current cluster and each sample saved under a
   cluster's key to that cluster, where a pushed sample belongs to the cluster that was current when
   its tick began.
   */
  lemma {:induction false} SamplesStayHome(storage: map<string, Stored>, es: seq<Event>)
    requires forall c, x :: c in storage && x in storage[c].cpu + storage[c].mem ==> x.origin == c
    requires forall e, x :: e in es && e.Foreign? && x in e.stored.cpu + e.stored.mem ==> x.origin == e.name
    requires Valid(Sampler([], [], None, 0, false, 0, false, None, "", storage, None), es)
    ensures var s := End(Sampler([], [], None, 0, false, 0, false, None, "", storage, None), es);
      && (forall x :: x in s.cpu + s.mem ==> x.origin == s.current)
      && (forall c, x :: c in s.storage && x in s.storage[c].cpu + s.storage[c].mem ==> x.origin == c)
  {
    forall c | c in storage ensures Of(storage[c].cpu, c) && Of(storage[c].mem, c) { BothOf(storage[c], c); }
    forall e | e in es && e.Foreign? ensures Of(e.stored.cpu, e.name) && Of(e.stored.mem, e.name) {
      BothOf(e.stored, e.name);
    }
    RunInv(Sampler([], [], None, 0, false, 0, false, None, "", storage, None), es);
  }

  /** At most 180 samples, none older than 15 minutes or marked invalid, the latest one last. */
  ghost predicate Fits(window: seq<Sample>, now: int, latest: Sample) {
    && 0 < |window| <= MAX_SAMPLES && window[|window| - 1] == latest
    && forall x :: x in window ==> x.ok && x.t >= now - WINDOW_MS
  }

  /** That predicate, written out. */
  lemma FitsMeans(window: seq<Sample>, now: int, latest: Sample)
    ensures Fits(window, now, latest) ==>
      && 0 < |window| <= 180 && window[|window| - 1] == latest
      && forall i :: 0 <= i < |window| ==> window[i].ok && now - window[i].t <= 15 * 60 * 1000
  {
  }

  lemma PushedFits(samples: seq<Sample>, v: int, now: int, cluster: string)
    ensures Fits(Pushed(samples, Some(v), now, cluster), now, Sample(now, v, true, cluster))
    ensures ValidOnly(Pushed(samples, Some(v), now, cluster)) == Pushed(samples, Some(v), now, cluster)
  {
    var x := Sample(now, v, true, cluster);
    PushSpec(samples, x, now);
    FilterAll(IS_VALID, PushSample(samples, x, now));
  }

  /** A tick that ended in its own epoch: each window whose value it computed fits, and is what is saved. */
  lemma PushBounds(s: Sampler, now: int, cpu: Option<int>, mem: Option<int>)
    requires s.pending.Some? && s.pending.value.epoch == s.epoch
    ensures var s' := TickEnd(s, now, cpu, mem);
      && (cpu.Some? ==> Fits(s'.cpu, now, Sample(now, cpu.value, true, s.pending.value.cluster)))
      && (mem.Some? ==> Fits(s'.mem, now, Sample(now, mem.value, true, s.pending.value.cluster)))
      && (cpu.None? ==> s'.cpu == s.cpu) && (mem.None? ==> s'.mem == s.mem)
      && (s.current != "" && cpu.Some? ==> s.current in s'.storage && s'.storage[s.current].cpu == s'.cpu)
      && (s.current != "" && mem.Some? ==> s.current in s'.storage && s'.storage[s.current].mem == s'.mem)
  {
    if cpu.Some? { PushedFits(s.cpu, cpu.value, now, s.pending.value.cluster); }
    if mem.Some? { PushedFits(s.mem, mem.value, now, s.pending.value.cluster); }
  }

  /**
   What a tick saves that ends in its own epoch: nothing when it computed nothing; else both windows, under
   the connected cluster and under no other, and under none while no cluster is connected.
   */
  lemma WhatATickSaves(s: Sampler, now: int, cpu: Option<int>, mem: Option<int>, cluster: string)
    requires s.pending.Some? && s.pending.value.epoch == s.epoch
    ensures
      var s' := TickEnd(s, now, cpu, mem);
      && (cpu.None? && mem.None? ==> s' == s.(pending := None))
      && (cpu.Some? || mem.Some? ==> s'.lastRefresh == Some(now) && s'.pending.None?)
      && (cluster in s'.storage <==> cluster in s.storage || (cluster == s.current != "" && (cpu.Some? || mem.Some?)))
      && (cluster in s'.storage ==>
            s'.storage[cluster] ==
            if cluster == s.current != "" && (cpu.Some? || mem.Some?)
            then Stored(Filter(IS_VALID, s'.cpu), Filter(IS_VALID, s'.mem)) else s.storage[cluster])
  {
  }

  /** A tick begins when the page is visible, none is under way and no switch is, and notes the present epoch. */
  lemma TickBegins(s: Sampler, hidden: bool)
    ensures TickBegin(s, hidden) ==
      if !hidden && s.pending.None? && !s.hold then s.(pending := Some(Pending(s.epoch, s.current))) else s
  {
  }

  lemma {:induction false} HeldOff(s: Sampler, es: seq<Event>)
    requires s.pending.None? && s.hold && Valid(s, es) && SetHold(false) !in es
    ensures End(s, es).pending.None?
    decreases |es|
  {
    if es != [] {
      assert es[0] in es;
      HeldOff(Step(s, es[0]), es[1..]);
    }
  }

  /** From the moment a switch is held until it is let go no tick begins, whatever else happens. */
  lemma NoTickWhileHeld(s: Sampler, es: seq<Event>)
    requires s.pending.None? && Valid(s, [SetHold(true)] + es) && SetHold(false) !in es
    ensures End(s, [SetHold(true)] + es).pending.None?
  {
    var all := [SetHold(true)] + es;
    assert all[0] == SetHold(true) && all[1..] == es;
    HeldOff(Step(s, all[0]), es);
  }

  /** What another tab saved for a cluster is what a switch to it shows. */
  lemma ForeignIsShown(s: Sampler, name: string, stored: Stored, now: int)
    requires name != "" && s.windowCluster != Some(name)
    ensures
      var s' := Connected(Step(s, Foreign(name, stored)), name, now);
      s'.cpu == Filter(Lasting(now), stored.cpu) && s'.mem == Filter(Lasting(now), stored.mem)
  {
    SwitchShowsStored(Step(s, Foreign(name, stored)), name, now);
  }

  /** The timer runs exactly while some page consumes the samples. */
  lemma {:induction false} TimerIffConsumed(s: Sampler, es: seq<Event>)
    requires Valid(s, es) && (s.timer <==> s.consumers > 0)
    ensures End(s, es).timer <==> End(s, es).consumers > 0
    decreases |es|
  {
    if es != [] { TimerIffConsumed(Step(s, es[0]), es[1..]); }
  }

  /** Each start is one consumer more, each stop one less, down to none. */
  lemma ConsumersCount(s: Sampler, now: int, hidden: bool)
    ensures StartSampling(s, now, hidden).consumers == s.consumers + 1
    ensures StopSampling(s).consumers == if s.consumers == 0 then 0 else s.consumers - 1
    ensures s.consumers > 0 ==> StartSampling(s, now, hidden) == s.(consumers := s.consumers + 1)
    ensures s.consumers == 0 ==>
      StartSampling(s, now, hidden) == TickBegin(Connected(s, s.current, now), hidden).(consumers := 1, timer := true)
  {
  }

  /** The sample is valid and at most 15 minutes old. */
  function Lasting(now: int): Sample -> bool { (x: Sample) => x.ok && now - x.t <= 15 * 60 * 1000 }

  /**
   Connecting to another cluster shows what is stored for it, in its order and without what is invalid or
   older than 15 minutes; with nothing stored, and on leaving for no cluster, the windows are empty.
   Connecting to the cluster the window belongs to leaves it alone.
   */
  lemma SwitchShowsStored(s: Sampler, name: string, now: int)
    ensures
      var s' := Connected(s, name, now);
      && s'.current == name && s'.storage == s.storage && s'.windowCluster == Some(name)
      && (s.windowCluster == Some(name) ==> s' == s.(current := name))
      && (s.windowCluster != Some(name) ==>
            && s'.lastRefresh.None? && s'.epoch == s.epoch + 1
            && s'.cpu == (if name != "" && name in s.storage then Filter(Lasting(now), s.storage[name].cpu) else [])
            && s'.mem == (if name != "" && name in s.storage then Filter(Lasting(now), s.storage[name].mem) else []))
  {
    if s.windowCluster != Some(name) && name != "" && name in s.storage {
      FilterAlike((x: Sample) => x.ok && x.t >= now - WINDOW_MS, Lasting(now), s.storage[name].cpu);
      FilterAlike((x: Sample) => x.ok && x.t >= now - WINDOW_MS, Lasting(now), s.storage[name].mem);
    }
  }

  /** A window that was saved comes back after a switch away and back, less what is by then too old. */
  lemma SavedWindowComesBack(s: Sampler, other: string, t1: int, t2: int)
    requires s.current != "" && other != s.current
    ensures
      var s1 := Connected(Connected(Persist(s), other, t1), s.current, t2);
      s1.cpu == Filter(Lasting(t2), s.cpu) && s1.mem == Filter(Lasting(t2), s.mem)
  {
    var saved := Persist(s);
    var away := Connected(saved, other, t1);
    SwitchShowsStored(saved, other, t1);
    SwitchShowsStored(away, s.current, t2);
    FilterFilter(IS_VALID, Lasting(t2), Lasting(t2), s.cpu);
    FilterFilter(IS_VALID, Lasting(t2), Lasting(t2), s.mem);
  }

  /** A tick that was suspended across a switch away and back changes nothing but its own flag. */
  lemma SwitchedAwayAndBack(s: Sampler, other: string, t1: int, t2: int, now: int, cpu: Option<int>, mem: Option<int>)
    requires Inv(s) && s.pending.Some? && other != s.current && s.windowCluster.Some?
    ensures var s1 := Connected(Connected(s, other, t1), s.current, t2);
      s1.pending == s.pending && TickEnd(s1, now, cpu, mem) == s1.(pending := None)
    ensures var run := [Connect(other, t1), Connect(s.current, t2), EndE(now, cpu, mem)];
      Valid(s, run) && End(s, run) == Connected(Connected(s, other, t1), s.current, t2).(pending := None)
  {
    var run := [Connect(other, t1), Connect(s.current, t2), EndE(now, cpu, mem)];
    var away := Step(s, run[0]);
    var back := Step(away, run[1]);
    assert run[1..] == [Connect(s.current, t2), EndE(now, cpu, mem)];
    assert run[1..][1..] == [EndE(now, cpu, mem)] && [EndE(now, cpu, mem)][1..] == [];
    assert Valid(Step(back, run[2]), []) && End(Step(back, run[2]), []) == Step(back, run[2]);
    assert Valid(back, [run[2]]) && End(back, [run[2]]) == Step(back, run[2]);
    assert Valid(away, run[1..]) && End(away, run[1..]) == Step(back, run[2]);
  }

  /** Leaving and re-entering the pages of one cluster does not clear its window. */
  lemma NavigationKeepsWindow(s: Sampler, now: int, hidden: bool)
    requires Inv(s) && s.windowCluster.Some? && s.consumers == 1
    ensures var s' := StartSampling(StopSampling(s), now, hidden);
      s'.cpu == s.cpu && s'.mem == s.mem && s'.epoch == s.epoch && s'.lastRefresh == s.lastRefresh
  {
  }
}
