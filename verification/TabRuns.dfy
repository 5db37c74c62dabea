/**
 Runs of any number of tabs over the shared disk. A tab that takes no step is a frozen tab:
 it keeps its old memory for as long as the run likes and may wake with any entry point.
 */
module TabRuns {
  import opened Wrappers
  import opened Seqs
  import opened TabProtocol
  import OM = OrderedMap

  // ------------------------------------------------------------ what persist writes

  ghost predicate Indexed(m: OM.Entries<string, Rec>) {
    OM.Distinct(OM.Keys(m)) && forall e :: e in m ==> e.0 == e.1.id
  }

  lemma {:induction false} PutIndexed(m: OM.Entries<string, Rec>, r: Rec)
    requires Indexed(m)
    ensures Indexed(OM.Put(m, r.id, r))
    ensures forall e :: e in OM.Put(m, r.id, r) <==> e == (r.id, r) || (e in m && e.0 != r.id)
  {
    OM.KeysOfPut(m, r.id, r);
    forall e ensures e in OM.Put(m, r.id, r) <==> e == (r.id, r) || (e in m && e.0 != r.id) {
      OM.EntryOfPut(m, r.id, r, e);
    }
  }

  lemma {:induction false} FromTableSpec(table: seq<Rec>)
    ensures Indexed(FromTable(table))
    ensures forall e :: e in FromTable(table) ==> e.1 in table
    ensures forall id :: id in OM.Keys(FromTable(table)) <==> id in RecIds(table)
  {
    if table != [] {
      var init, r := table[..|table| - 1], table[|table| - 1];
      assert table == init + [r];
      FromTableSpec(init);
      PutIndexed(FromTable(init), r);
      OM.KeysOfPut(FromTable(init), r.id, r);
      forall id ensures id in OM.Keys(FromTable(table)) <==> id in RecIds(table) {
        assert id in RecIds(table) <==> id == r.id || id in RecIds(init);
      }
    }
  }

  lemma {:induction false} PutWindowsKeys(m: OM.Entries<string, Rec>, ws: seq<Win>)
    requires Indexed(m)
    ensures Indexed(PutWindows(m, ws))
    ensures forall id :: id in OM.Keys(PutWindows(m, ws)) <==> id in OM.Keys(m) || id in WinIds(ws)
  {
    if ws != [] {
      var init, w := ws[..|ws| - 1], ws[|ws| - 1];
      assert ws == init + [w];
      PutWindowsKeys(m, init);
      PutIndexed(PutWindows(m, init), Meta(w));
      OM.KeysOfPut(PutWindows(m, init), w.id, Meta(w));
      forall id ensures id in OM.Keys(PutWindows(m, ws)) <==> id in OM.Keys(m) || id in WinIds(ws) {
        assert id in WinIds(ws) <==> id == w.id || id in WinIds(init);
      }
    }
  }

  lemma ByIdNext(ws: seq<Win>, w: Win, id: string)
    ensures id in WinIds(ws + [w]) <==> id == w.id || id in WinIds(ws)
    ensures id in WinIds(ws + [w]) ==> ById(ws + [w])[id] == if id == w.id then w else ById(ws)[id]
  {
    assert (ws + [w])[..|ws|] == ws;
    assert forall x :: x in ws + [w] <==> x == w || x in ws;
  }

  lemma {:induction false} PutWindowsSpec(m: OM.Entries<string, Rec>, ws: seq<Win>)
    requires Indexed(m)
    ensures forall e :: e in PutWindows(m, ws) ==>
      if e.0 in WinIds(ws) then e.1 == Meta(ById(ws)[e.0]) else e in m
  {
    if ws != [] {
      var init, w := ws[..|ws| - 1], ws[|ws| - 1];
      assert ws == init + [w];
      PutWindowsSpec(m, init);
      PutWindowsKeys(m, init);
      PutIndexed(PutWindows(m, init), Meta(w));
      forall e | e in PutWindows(m, ws) ensures if e.0 in WinIds(ws) then e.1 == Meta(ById(ws)[e.0]) else e in m {
        ByIdNext(init, w, e.0);
      }
    }
  }

  ghost predicate DistinctIds(table: seq<Rec>) {
    forall i, j :: 0 <= i < j < |table| ==> table[i].id != table[j].id
  }

  lemma {:induction false} FilterDistinctIds(p: Rec -> bool, table: seq<Rec>)
    requires DistinctIds(table)
    ensures DistinctIds(Filter(p, table))
  {
    if table != [] {
      FilterDistinctIds(p, table[1..]);
      forall r | r in table[1..] ensures r.id != table[0].id {
        var i :| 0 <= i < |table[1..]| && table[1..][i] == r;
        assert table[i + 1] == r;
      }
    }
  }

  /** The rows as merged, before any is filtered out. */
  lemma MergedSpec(table: seq<Rec>, ws: seq<Win>)
    ensures var merged := OM.Values(PutWindows(FromTable(table), ws));
      && DistinctIds(merged)
      && (forall r :: r in merged ==> if r.id in WinIds(ws) then r == Meta(ById(ws)[r.id]) else r in table)
      && (forall id :: id in RecIds(merged) <==> id in RecIds(table) || id in WinIds(ws))
  {
    var m := PutWindows(FromTable(table), ws);
    var merged := OM.Values(m);
    FromTableSpec(table);
    PutWindowsKeys(FromTable(table), ws);
    PutWindowsSpec(FromTable(table), ws);
    forall i | 0 <= i < |m| ensures m[i] in m && merged[i].id == OM.Keys(m)[i] {
    }
    forall r | r in merged ensures (r.id, r) in m && r.id in OM.Keys(m) {
      var i :| 0 <= i < |m| && merged[i] == r;
      assert OM.Keys(m)[i] == r.id;
    }
    forall id | id in OM.Keys(m) ensures id in RecIds(merged) {
      var i :| 0 <= i < |m| && OM.Keys(m)[i] == id;
      assert merged[i] in merged;
    }
  }

  lemma FilteredIds(p: Rec -> bool, removed: set<string>, table: seq<Rec>)
    requires forall r :: p(r) <==> r.id !in removed
    ensures RecIds(Filter(p, table)) == RecIds(table) - removed
  {
    forall id | id in RecIds(table) - removed ensures id in RecIds(Filter(p, table)) {
      var r :| r in table && r.id == id;
      assert r in Filter(p, table);
    }
  }

  /**
   persist() merges: exactly the ids on disk or in memory, minus the removed and the tombstoned
   ones; each once; a row of this tab's windows is written from memory, any other row is the
   one that was on disk.
   */
  lemma PersistSpec(tab: Tab, disk: Disk)
    ensures Persist(tab, disk).tombs == disk.tombs
    ensures RecIds(Persist(tab, disk).table) ==
      (RecIds(disk.table) + WinIds(tab.windows)) - tab.removed - disk.tombs.Keys
    ensures DistinctIds(Persist(tab, disk).table)
    ensures forall r :: r in Persist(tab, disk).table ==>
      if r.id in WinIds(tab.windows) then r == Meta(ById(tab.windows)[r.id]) else r in disk.table
  {
    var keep := (r: Rec) => r.id !in tab.removed && r.id !in disk.tombs;
    var merged := OM.Values(PutWindows(FromTable(disk.table), tab.windows));
    MergedSpec(disk.table, tab.windows);
    FilterDistinctIds(keep, merged);
    FilteredIds(keep, tab.removed + disk.tombs.Keys, merged);
    assert RecIds(merged) == RecIds(disk.table) + WinIds(tab.windows);
  }

  // ------------------------------------------------------------ steps

  datatype Action =
    | SyncFromStorage
    | Add(id: string, serverId: string, name: string)
    | FocusServerAt(i: nat, granted: bool)
    | Adopt(serverId: string, name: string, sessions: seq<Session>, freshId: string)
    | Close(id: string)
    | Reattach(id: string, serverId: string, name: string, title: string, granted: bool)
    | External(id: string, granted: bool)
    | FocusPopup(id: string, granted: bool)
    | Alive(id: string, serverId: string, name: string)
    | Gone(id: string)
    | Poll(id: string)
    | PageCloses(id: string)
    | Minimize(id: string)
    | Rename(id: string, title: string)
    | Restore(id: string)
    | Focus(id: string)

  /** The entry points that write nothing to the shared tables. */
  predicate InMemory(a: Action) {
    a.SyncFromStorage? || a.Gone? || a.Poll? || a.PageCloses? || a.Minimize? || a.Restore? || a.Focus?
  }

  function ActInMemory(a: Action, tab: Tab, disk: Disk): Tab
    requires InMemory(a)
  {
    match a
    case SyncFromStorage => Sync(tab, disk)
    case Gone(id) => PopupGoneSignal(tab, id)
    case Poll(id) => PollPopup(tab, id)
    case PageCloses(id) => ClosePopupPage(tab, id)
    case Minimize(id) => MinimizeWindow(tab, id)
    case Restore(id) => RestoreWindow(tab, id)
    case Focus(id) => FocusWindow(tab, id)
  }

  function ActOnTables(a: Action, now: int, tab: Tab, disk: Disk): Turn
    requires !InMemory(a)
  {
    match a
    case Add(id, serverId, name) => AddWindow(tab, disk, id, serverId, name)
    case FocusServerAt(i, granted) => if i < |tab.windows| then FocusServer(tab, disk, i, granted) else (tab, disk)
    case Adopt(serverId, name, sessions, freshId) => AdoptOrAdd(tab, disk, serverId, name, sessions, freshId, now)
    case Close(id) => CloseWindow(tab, disk, id, now)
    case Reattach(id, serverId, name, title, granted) => ReattachOrphan(tab, disk, id, serverId, name, title, granted)
    case External(id, granted) => OpenExternal(tab, disk, id, granted)
    case FocusPopup(id, granted) => FocusExternal(tab, disk, id, granted)
    case Alive(id, serverId, name) => PopupAliveSignal(tab, disk, id, serverId, name)
    case Rename(id, title) => RenameWindow(tab, disk, id, title)
  }

  function Act(a: Action, now: int, tab: Tab, disk: Disk): Turn {
    if InMemory(a) then (ActInMemory(a, tab, disk), disk) else ActOnTables(a, now, tab, disk)
  }

  ghost predicate Apart(disk: Disk) { RecIds(disk.table) !! disk.tombs.Keys }

  /** Every row of disk whose id is neither removed by the tab nor tombstoned is still in disk'. */
  ghost predicate Keeps(disk: Disk, removed: set<string>, disk': Disk) {
    RecIds(disk.table) - removed - disk'.tombs.Keys <= RecIds(disk'.table)
  }

  function Closing(a: Action): set<string> { if a.Close? then {a.id} else {} }

  /** What an entry point that closes the ids in `closing` may do to the shared tables. */
  ghost predicate Effect(tab: Tab, disk: Disk, turn: Turn, closing: set<string>) {
    && turn.0.removed == tab.removed + closing
    && turn.1.tombs.Keys <= disk.tombs.Keys + closing
    && (Apart(disk) ==> Apart(turn.1))
    && Keeps(disk, turn.0.removed, turn.1)
  }

  lemma SavedEffect(tab: Tab, disk: Disk, tab': Tab, after: Tab)
    requires tab'.removed == tab.removed == after.removed
    ensures Effect(tab, disk, (after, Persist(tab', disk)), {})
  {
    PersistSpec(tab', disk);
  }

  lemma OpenExternalEffect(tab: Tab, disk: Disk, id: string, granted: bool)
    ensures Effect(tab, disk, OpenExternal(tab, disk, id, granted), {})
  {
    var i := Find(tab.windows, id);
    if i.Some? && !PopupAlive(tab, id) {
      SavedEffect(tab, disk, SetStatus(tab, i.value, Status.External), OpenExternal(tab, disk, id, granted).0);
    }
  }

  lemma FocusExternalEffect(tab: Tab, disk: Disk, id: string, granted: bool)
    ensures Effect(tab, disk, FocusExternal(tab, disk, id, granted), {})
  {
    var i := Find(tab.windows, id);
    if i.Some? {
      var to := if !PopupAlive(tab, id) && !granted then Minimized else Status.External;
      var (tab', _) := FocusExternal(tab, disk, id, granted);
      SavedEffect(tab, disk, tab', tab');
    }
  }

  lemma CloseEffect(tab: Tab, disk: Disk, id: string, now: int)
    ensures Effect(tab, disk, CloseWindow(tab, disk, id, now), {id})
  {
    var tab' := tab.(removed := tab.removed + {id}, windows := Filter((w: Win) => w.id != id, tab.windows));
    PersistSpec(tab', disk.(tombs := Purge(disk.tombs[id := now], now, TOMB_TTL)));
  }

  lemma ReattachEffect(tab: Tab, disk: Disk, id: string, serverId: string, name: string, title: string, granted: bool)
    ensures Effect(tab, disk, ReattachOrphan(tab, disk, id, serverId, name, title, granted), {})
  {
    var cleared := disk.(tombs := disk.tombs - {id});
    assert Apart(disk) ==> Apart(cleared);
    if id in WinIds(tab.windows) {
      OpenExternalEffect(tab, cleared, id, granted);
    } else {
      var tab' := tab.(windows := tab.windows + [Win(id, serverId, Or(name, serverId), title, Minimized, 0)]);
      PersistSpec(tab', cleared);
      OpenExternalEffect(tab', Persist(tab', cleared), id, granted);
    }
  }

  lemma MemoryEffect(tab: Tab, disk: Disk, tab': Tab)
    requires tab'.removed == tab.removed
    ensures Effect(tab, disk, (tab', disk), {})
  {
  }

  lemma AddEffect(tab: Tab, disk: Disk, id: string, serverId: string, name: string)
    ensures Effect(tab, disk, AddWindow(tab, disk, id, serverId, name), {})
  {
    var (tab', _) := AddWindow(tab, disk, id, serverId, name);
    SavedEffect(tab, disk, tab', tab');
  }

  lemma AdoptEffect(tab: Tab, disk: Disk, serverId: string, name: string, sessions: seq<Session>, freshId: string,
      now: int)
    ensures Effect(tab, disk, AdoptOrAdd(tab, disk, serverId, name, sessions, freshId, now), {})
  {
    AddEffect(tab, disk, freshId, serverId, name);
    var (tab', _) := AdoptOrAdd(tab, disk, serverId, name, sessions, freshId, now);
    SavedEffect(tab, disk, tab', tab');
  }

  lemma AliveEffect(tab: Tab, disk: Disk, id: string, serverId: string, name: string)
    ensures Effect(tab, disk, PopupAliveSignal(tab, disk, id, serverId, name), {})
  {
    var (tab', _) := PopupAliveSignal(tab, disk, id, serverId, name);
    SavedEffect(tab, disk, tab', tab');
    MemoryEffect(tab, disk, tab');
  }

  lemma RenameEffect(tab: Tab, disk: Disk, id: string, title: string)
    ensures Effect(tab, disk, RenameWindow(tab, disk, id, title), {})
  {
    var (tab', _) := RenameWindow(tab, disk, id, title);
    SavedEffect(tab, disk, tab', tab');
    MemoryEffect(tab, disk, tab');
  }

  lemma FocusServerEffect(tab: Tab, disk: Disk, i: nat, granted: bool)
    requires i < |tab.windows|
    ensures Effect(tab, disk, FocusServer(tab, disk, i, granted), {})
  {
    FocusExternalEffect(tab, disk, tab.windows[i].id, granted);
    MemoryEffect(tab, disk, FocusWindow(tab, tab.windows[i].id));
  }

  lemma MemoryKeepsRemoved(a: Action, tab: Tab, disk: Disk)
    requires InMemory(a)
    ensures ActInMemory(a, tab, disk).removed == tab.removed
  {
  }

  lemma PopupActOnDisk(a: Action, now: int, tab: Tab, disk: Disk)
    requires a.External? || a.FocusPopup? || a.Alive? || a.Reattach?
    ensures Effect(tab, disk, ActOnTables(a, now, tab, disk), {})
  {
    match a
    case Reattach(id, serverId, name, title, granted) => ReattachEffect(tab, disk, id, serverId, name, title, granted);
    case External(id, granted) => OpenExternalEffect(tab, disk, id, granted);
    case FocusPopup(id, granted) => FocusExternalEffect(tab, disk, id, granted);
    case Alive(id, serverId, name) => AliveEffect(tab, disk, id, serverId, name);
  }

  lemma WindowActOnDisk(a: Action, now: int, tab: Tab, disk: Disk)
    requires a.Add? || a.FocusServerAt? || a.Adopt? || a.Close? || a.Rename?
    ensures Effect(tab, disk, ActOnTables(a, now, tab, disk), Closing(a))
  {
    match a
    case Add(id, serverId, name) => AddEffect(tab, disk, id, serverId, name);
    case FocusServerAt(i, granted) =>
      if i < |tab.windows| { FocusServerEffect(tab, disk, i, granted); } else { MemoryEffect(tab, disk, tab); }
    case Adopt(serverId, name, sessions, freshId) => AdoptEffect(tab, disk, serverId, name, sessions, freshId, now);
    case Close(id) => CloseEffect(tab, disk, id, now);
    case Rename(id, title) => RenameEffect(tab, disk, id, title);
  }

  lemma ActOnDisk(a: Action, now: int, tab: Tab, disk: Disk)
    ensures Effect(tab, disk, Act(a, now, tab, disk), Closing(a))
  {
    if InMemory(a) {
      MemoryKeepsRemoved(a, tab, disk);
      MemoryEffect(tab, disk, ActInMemory(a, tab, disk));
    } else if a.External? || a.FocusPopup? || a.Alive? || a.Reattach? {
      PopupActOnDisk(a, now, tab, disk);
    } else {
      WindowActOnDisk(a, now, tab, disk);
    }
  }

  // ------------------------------------------------------------ runs

  datatype Event = Load(tab: nat) | Do(tab: nat, now: int, act: Action)

  /** `closed` is the history of all ids any tab ever closed; the tabs do not see it. */
  datatype World = World(tabs: map<nat, Tab>, disk: Disk, clock: int, closed: set<string>)

  predicate Enabled(w: World, e: Event) {
    e.Do? ==> e.tab in w.tabs && w.clock <= e.now
  }

  function Step(w: World, e: Event): World
    requires Enabled(w, e)
  {
    match e
    case Load(i) => w.(tabs := w.tabs[i := Fresh(w.disk)])
    case Do(i, now, a) =>
      var (tab, disk) := Act(a, now, w.tabs[i], w.disk);
      World(w.tabs[i := tab], disk, now, w.closed + Closing(a))
  }

  predicate Valid(w: World, es: seq<Event>)
    decreases |es|
  {
    es != [] ==> Enabled(w, es[0]) && Valid(Step(w, es[0]), es[1..])
  }

  function End(w: World, es: seq<Event>): World
    requires Valid(w, es)
    decreases |es|
  {
    if es == [] then w else End(Step(w, es[0]), es[1..])
  }

  ghost predicate Inv(w: World) {
    && Apart(w.disk)
    && w.disk.tombs.Keys <= w.closed
    && forall i :: i in w.tabs ==> w.tabs[i].removed <= w.closed
  }

  lemma StepInv(w: World, e: Event)
    requires Inv(w) && Enabled(w, e)
    ensures Inv(Step(w, e))
    ensures w.closed <= Step(w, e).closed
    ensures RecIds(w.disk.table) - Step(w, e).closed <= RecIds(Step(w, e).disk.table)
  {
    if e.Do? {
      ActOnDisk(e.act, e.now, w.tabs[e.tab], w.disk);
    }
  }

  /**
   In every run of any number of tabs, awake or frozen: no id is both tombstoned and in the
   window table, so no tab's persist revives a closed window while its tombstone is held.
   */
  lemma {:induction false} NoRevival(w: World, es: seq<Event>)
    requires Inv(w) && Valid(w, es)
    ensures Inv(End(w, es))
    decreases |es|
  {
    if es != [] {
      StepInv(w, es[0]);
      NoRevival(Step(w, es[0]), es[1..]);
    }
  }

  /** An id on disk that no tab has closed is still on disk after any further run of any tabs. */
  lemma {:induction false} NeverClosedStays(w: World, es: seq<Event>, id: string)
    requires Inv(w) && Valid(w, es)
    requires id in RecIds(w.disk.table) && id !in End(w, es).closed
    ensures id in RecIds(End(w, es).disk.table)
    decreases |es|
  {
    if es != [] {
      StepInv(w, es[0]);
      ClosedGrows(Step(w, es[0]), es[1..]);
      NeverClosedStays(Step(w, es[0]), es[1..], id);
    }
  }

  lemma {:induction false} ClosedGrows(w: World, es: seq<Event>)
    requires Inv(w) && Valid(w, es)
    ensures w.closed <= End(w, es).closed
    decreases |es|
  {
    if es != [] {
      StepInv(w, es[0]);
      ClosedGrows(Step(w, es[0]), es[1..]);
    }
  }

  // ------------------------------------------------------------ a close is final

  lemma AddTombs(tab: Tab, disk: Disk, id: string, serverId: string, name: string)
    ensures AddWindow(tab, disk, id, serverId, name).1.tombs == disk.tombs
  {
  }

  lemma AdoptTombs(tab: Tab, disk: Disk, serverId: string, name: string, ss: seq<Session>, freshId: string, now: int)
    ensures AdoptOrAdd(tab, disk, serverId, name, ss, freshId, now).1.tombs == disk.tombs
  {
  }

  lemma AliveTombs(tab: Tab, disk: Disk, id: string, serverId: string, name: string)
    ensures PopupAliveSignal(tab, disk, id, serverId, name).1.tombs == disk.tombs
  {
  }

  lemma RenameTombs(tab: Tab, disk: Disk, id: string, title: string)
    ensures RenameWindow(tab, disk, id, title).1.tombs == disk.tombs
  {
  }

  lemma OpenExternalTombs(tab: Tab, disk: Disk, id: string, granted: bool)
    ensures OpenExternal(tab, disk, id, granted).1.tombs == disk.tombs
  {
  }

  lemma FocusExternalTombs(tab: Tab, disk: Disk, id: string, granted: bool)
    ensures FocusExternal(tab, disk, id, granted).1.tombs == disk.tombs
  {
  }

  lemma FocusServerTombs(tab: Tab, disk: Disk, i: nat, granted: bool)
    requires i < |tab.windows|
    ensures FocusServer(tab, disk, i, granted).1.tombs == disk.tombs
  {
    FocusExternalTombs(tab, disk, tab.windows[i].id, granted);
  }

  /** The entry points of windows that change no tombstone. */
  lemma WindowTombs(a: Action, now: int, tab: Tab, disk: Disk)
    requires a.Add? || a.Adopt? || a.Rename? || a.FocusServerAt?
    ensures ActOnTables(a, now, tab, disk).1.tombs == disk.tombs
  {
    match a
    case Add(id, serverId, name) => AddTombs(tab, disk, id, serverId, name);
    case Adopt(serverId, name, sessions, freshId) => AdoptTombs(tab, disk, serverId, name, sessions, freshId, now);
    case FocusServerAt(i, granted) => if i < |tab.windows| { FocusServerTombs(tab, disk, i, granted); }
    case Rename(id, title) => RenameTombs(tab, disk, id, title);
  }

  /** And those of popups. */
  lemma PopupTombs(a: Action, now: int, tab: Tab, disk: Disk)
    requires a.External? || a.FocusPopup? || a.Alive?
    ensures ActOnTables(a, now, tab, disk).1.tombs == disk.tombs
  {
    match a
    case External(id, granted) => OpenExternalTombs(tab, disk, id, granted);
    case FocusPopup(id, granted) => FocusExternalTombs(tab, disk, id, granted);
    case Alive(id, serverId, name) => AliveTombs(tab, disk, id, serverId, name);
  }

  lemma CloseTombs(tab: Tab, disk: Disk, id: string, now: int)
    ensures CloseWindow(tab, disk, id, now).1.tombs == Purge(disk.tombs[id := now], now, TOMB_TTL)
  {
  }

  lemma ReattachTombs(tab: Tab, disk: Disk, id: string, serverId: string, name: string, title: string, granted: bool)
    ensures ReattachOrphan(tab, disk, id, serverId, name, title, granted).1.tombs == disk.tombs - {id}
  {
  }

  /** Only a close adds a tombstone, and purges those past the age limit; only a reattach takes one away. */
  lemma TombsAfter(a: Action, now: int, tab: Tab, disk: Disk)
    ensures Act(a, now, tab, disk).1.tombs ==
      if a.Close? then Purge(disk.tombs[a.id := now], now, TOMB_TTL)
      else if a.Reattach? then disk.tombs - {a.id}
      else disk.tombs
  {
    if a.Close? {
      CloseTombs(tab, disk, a.id, now);
    } else if a.Reattach? {
      ReattachTombs(tab, disk, a.id, a.serverId, a.name, a.title, a.granted);
    } else if a.External? || a.FocusPopup? || a.Alive? {
      PopupTombs(a, now, tab, disk);
    } else if !InMemory(a) {
      WindowTombs(a, now, tab, disk);
    }
  }

  /** No event reattaches id, and all happen within the lifetime of a tombstone set at `since`. */
  predicate LeavesClosed(es: seq<Event>, id: string, since: int) {
    forall e :: e in es && e.Do? ==> e.now <= since + TOMB_TTL && !(e.act.Reattach? && e.act.id == id)
  }

  ghost predicate Held(w: World, id: string, since: int) {
    Inv(w) && since <= w.clock && id in w.disk.tombs && since <= w.disk.tombs[id]
  }

  lemma {:induction false} HeldStays(w: World, es: seq<Event>, id: string, since: int)
    requires Held(w, id, since) && Valid(w, es) && LeavesClosed(es, id, since)
    ensures Held(End(w, es), id, since)
    decreases |es|
  {
    if es != [] {
      var e := es[0];
      StepInv(w, e);
      if e.Do? {
        TombsAfter(e.act, e.now, w.tabs[e.tab], w.disk);
      }
      HeldStays(Step(w, e), es[1..], id, since);
    }
  }

  lemma LoadedIds(disk: Disk)
    ensures WinIds(LoadPersisted(disk)) <= RecIds(disk.table) - disk.tombs.Keys
  {
    var kept := Filter((r: Rec) => r.id != "" && r.serverId != "" && r.id !in disk.tombs, disk.table);
    forall w | w in LoadPersisted(disk) ensures w.id in RecIds(disk.table) && w.id !in disk.tombs {
      var i :| 0 <= i < |kept| && w == Loaded(kept[i]);
      assert kept[i] in kept;
    }
  }

  lemma {:induction false} ReconcileKeepsMeta(loaded: seq<Win>, known: map<string, Win>)
    requires forall id :: id in known ==> known[id].id == id
    ensures Map(Meta, Reconcile(loaded, known)) == Map(Meta, loaded)
  {
    if loaded != [] {
      var rest := known - {loaded[0].id};
      ReconcileKeepsMeta(loaded[1..], rest);
      forall i | 0 < i < |loaded| ensures Meta(Reconcile(loaded, known)[i]) == Meta(loaded[i]) {
        assert Meta(Reconcile(loaded[1..], rest)[i - 1]) == Map(Meta, loaded[1..])[i - 1];
      }
    }
  }

  /** A tab that syncs shows exactly what a freshly loaded page shows, row by row. */
  lemma SyncShowsDisk(tab: Tab, disk: Disk)
    ensures Map(Meta, Sync(tab, disk).windows) == Map(Meta, Fresh(disk).windows)
    ensures WinIds(Sync(tab, disk).windows) == WinIds(Fresh(disk).windows)
  {
    ReconcileKeepsMeta(LoadPersisted(disk), ById(tab.windows));
    SameMetaSameIds(Sync(tab, disk).windows, Fresh(disk).windows);
    SameMetaSameIds(Fresh(disk).windows, Sync(tab, disk).windows);
  }

  lemma SameMetaSameIds(a: seq<Win>, b: seq<Win>)
    requires Map(Meta, a) == Map(Meta, b)
    ensures WinIds(a) <= WinIds(b)
  {
    forall id | id in WinIds(a) ensures id in WinIds(b) {
      var i :| 0 <= i < |a| && a[i].id == id;
      assert Map(Meta, a)[i] == Map(Meta, b)[i];
      assert b[i] in b && b[i].id == id;
    }
  }

  /**
   After some tab closes id, as long as the tombstone lives and nobody reattaches the session:
   whatever all tabs do, id is not on disk, and a tab that loads or syncs does not show it.
   */
  lemma {:induction false} CloseIsFinal(w: World, i: nat, id: string, now: int, es: seq<Event>)
    requires Inv(w) && Enabled(w, Do(i, now, Close(id)))
    requires Valid(Step(w, Do(i, now, Close(id))), es) && LeavesClosed(es, id, now)
    ensures var w' := End(Step(w, Do(i, now, Close(id))), es);
      && id !in RecIds(w'.disk.table)
      && id !in WinIds(Fresh(w'.disk).windows)
      && forall j :: j in w'.tabs ==> id !in WinIds(Sync(w'.tabs[j], w'.disk).windows)
  {
    var close := Do(i, now, Close(id));
    StepInv(w, close);
    TombsAfter(close.act, now, w.tabs[i], w.disk);
    HeldStays(Step(w, close), es, id, now);
    var w' := End(Step(w, close), es);
    LoadedIds(w'.disk);
    forall j | j in w'.tabs ensures id !in WinIds(Sync(w'.tabs[j], w'.disk).windows) {
      SyncShowsDisk(w'.tabs[j], w'.disk);
    }
  }

  // ------------------------------------------------------------ reattaching

  /** The window is there with a live popup: the tombstone is cleared and nothing is written. */
  lemma ReattachOfLivePopup(tab: Tab, disk: Disk, id: string, serverId: string, name: string, title: string,
      granted: bool)
    requires id in WinIds(tab.windows) && PopupAlive(tab, id)
    ensures ReattachOrphan(tab, disk, id, serverId, name, title, granted) == (tab, disk.(tombs := disk.tombs - {id}))
  {
  }

  lemma ReattachOfShown(tab: Tab, disk: Disk, id: string, granted: bool)
    requires id in WinIds(tab.windows) && !PopupAlive(tab, id) && id !in disk.tombs
    ensures id in RecIds(OpenExternal(tab, disk, id, granted).1.table) <==> id !in tab.removed
  {
    var i := Find(tab.windows, id).value;
    var tab' := SetStatus(tab, i, Status.External);
    assert tab'.windows[i] in tab'.windows && tab'.windows[i].id == id;
    PersistSpec(tab', disk);
  }

  lemma ReattachOfMissing(tab: Tab, disk: Disk, w: Win, granted: bool)
    requires w.id !in WinIds(tab.windows) && w.id !in disk.tombs
    ensures
      var tab' := tab.(windows := tab.windows + [w]);
      w.id in RecIds(OpenExternal(tab', Persist(tab', disk), w.id, granted).1.table) <==> w.id !in tab.removed
  {
    var tab' := tab.(windows := tab.windows + [w]);
    assert w in tab'.windows;
    PersistSpec(tab', disk);
    if !PopupAlive(tab', w.id) { ReattachOfShown(tab', Persist(tab', disk), w.id, granted); }
  }

  /**
   Reattaching a session writes its row exactly when this tab has not removed the id itself: the
   tombstone is cleared, the tab's own removed set is not. Where the window is there with a live popup
   nothing is written, and the id is on disk exactly if it was.
   */
  lemma ReattachPersistsIff(tab: Tab, disk: Disk, id: string, serverId: string, name: string, title: string,
      granted: bool)
    ensures id in RecIds(ReattachOrphan(tab, disk, id, serverId, name, title, granted).1.table) <==>
      if id in WinIds(tab.windows) && PopupAlive(tab, id) then id in RecIds(disk.table) else id !in tab.removed
  {
    var cleared := disk.(tombs := disk.tombs - {id});
    if id !in WinIds(tab.windows) {
      ReattachOfMissing(tab, cleared, Win(id, serverId, Or(name, serverId), title, Minimized, 0), granted);
    } else if PopupAlive(tab, id) {
      ReattachOfLivePopup(tab, disk, id, serverId, name, title, granted);
    } else {
      ReattachOfShown(tab, cleared, id, granted);
    }
  }

  lemma PopupKeepsId(tab: Tab, disk: Disk, id: string, granted: bool)
    requires id in WinIds(tab.windows)
    ensures id in WinIds(OpenExternal(tab, disk, id, granted).0.windows)
  {
    var i := Find(tab.windows, id).value;
    var ws := SetStatus(tab, i, Status.External).windows;
    assert ws[i] in ws && ws[i].id == id;
  }

  /** A reattached session is shown. */
  lemma ReattachShows(tab: Tab, disk: Disk, id: string, serverId: string, name: string, title: string, granted: bool)
    ensures id in WinIds(ReattachOrphan(tab, disk, id, serverId, name, title, granted).0.windows)
  {
    var cleared := disk.(tombs := disk.tombs - {id});
    if id in WinIds(tab.windows) {
      PopupKeepsId(tab, cleared, id, granted);
    } else {
      var w := Win(id, serverId, Or(name, serverId), title, Minimized, 0);
      var tab' := tab.(windows := tab.windows + [w]);
      assert w in tab'.windows;
      PopupKeepsId(tab', Persist(tab', cleared), id, granted);
    }
  }

  lemma ClosedHere(tab: Tab, disk: Disk, id: string, now: int)
    ensures var tab1 := CloseWindow(tab, disk, id, now).0; id in tab1.removed && id !in WinIds(tab1.windows)
  {
  }

  /** So a session closed and reattached in the same tab is gone again after a reload. */
  lemma CloseThenReattachIsLost(tab: Tab, disk: Disk, id: string, serverId: string, name: string, title: string,
      granted: bool, now: int)
    ensures var (tab1, disk1) := CloseWindow(tab, disk, id, now);
      var (tab2, disk2) := ReattachOrphan(tab1, disk1, id, serverId, name, title, granted);
      id in WinIds(tab2.windows) && id !in WinIds(Fresh(disk2).windows)
  {
    var (tab1, disk1) := CloseWindow(tab, disk, id, now);
    ClosedHere(tab, disk, id, now);
    ReattachShows(tab1, disk1, id, serverId, name, title, granted);
    ReattachPersistsIff(tab1, disk1, id, serverId, name, title, granted);
    LoadedIds(ReattachOrphan(tab1, disk1, id, serverId, name, title, granted).1);
  }
}
