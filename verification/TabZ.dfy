/** The open windows of a tab keep pairwise distinct z values, with the raised window on top. */
module TabZ {
  import opened Wrappers
  import opened Seqs
  import opened TabProtocol
  import opened TabRuns
  import JsText
  import ZScale

  /** The index of window i among the open windows. */
  function Pos(ws: seq<Win>, i: nat): nat
    requires i <= |ws|
  {
    |OpenZs(ws[..i])|
  }

  lemma {:induction false} OpenZsPrefix(ws: seq<Win>, i: nat, j: nat)
    requires i <= j <= |ws|
    ensures OpenZs(ws[..i]) <= OpenZs(ws[..j])
  {
    if i < j {
      OpenZsPrefix(ws, i, j - 1);
      assert ws[..j][..j - 1] == ws[..j - 1];
    }
  }

  lemma {:induction false} OpenZsAt(ws: seq<Win>, i: nat)
    requires i < |ws| && ws[i].status.Open?
    ensures Pos(ws, i) < |OpenZs(ws)| && OpenZs(ws)[Pos(ws, i)] == ws[i].z
    ensures forall j :: i < j < |ws| ==> Pos(ws, i) < Pos(ws, j)
  {
    assert ws[..i + 1][..i] == ws[..i];
    forall j | i < j <= |ws| ensures OpenZs(ws[..i + 1]) <= OpenZs(ws[..j]) {
      OpenZsPrefix(ws, i + 1, j);
    }
    assert ws[..|ws|] == ws;
  }

  lemma {:induction false} OpenZsInverse(ws: seq<Win>, p: nat) returns (i: nat)
    requires p < |OpenZs(ws)|
    ensures i < |ws| && ws[i].status.Open? && Pos(ws, i) == p
  {
    var init := ws[..|ws| - 1];
    if p < |OpenZs(init)| {
      i := OpenZsInverse(init, p);
      assert init[..i] == ws[..i];
    } else {
      i := |ws| - 1;
    }
  }

  /** The values of the windows before the last one. */
  function Before(ws: seq<Win>, zs: seq<int>): (r: seq<int>)
    requires ws != [] && |zs| == |OpenZs(ws)|
    ensures |r| == |OpenZs(ws[..|ws| - 1])| == Pos(ws, |ws| - 1) && r <= zs
  {
    if ws[|ws| - 1].status.Open? then zs[..|zs| - 1] else zs
  }

  lemma WithOpenZsLast(ws: seq<Win>, zs: seq<int>)
    requires ws != [] && |zs| == |OpenZs(ws)|
    ensures var n := |ws| - 1; ws[n].status.Open? ==> Pos(ws, n) < |zs| && WithOpenZs(ws, zs)[n].z == zs[Pos(ws, n)]
  {
  }

  lemma WithOpenZsInit(ws: seq<Win>, zs: seq<int>, i: nat)
    requires i < |ws| - 1 && |zs| == |OpenZs(ws)|
    ensures WithOpenZs(ws, zs)[i] == WithOpenZs(ws[..|ws| - 1], Before(ws, zs))[i]
  {
  }

  lemma PosInit(ws: seq<Win>, n: nat, i: nat)
    requires i <= n <= |ws|
    ensures Pos(ws[..n], i) == Pos(ws, i)
  {
    assert ws[..n][..i] == ws[..i];
  }

  lemma {:induction false} WithOpenZsAt(ws: seq<Win>, zs: seq<int>, i: nat)
    requires |zs| == |OpenZs(ws)| && i < |ws| && ws[i].status.Open?
    ensures Pos(ws, i) < |zs| && WithOpenZs(ws, zs)[i].z == zs[Pos(ws, i)]
  {
    var n := |ws| - 1;
    if i < n {
      PosInit(ws, n, i);
      WithOpenZsAt(ws[..n], Before(ws, zs), i);
      WithOpenZsInit(ws, zs, i);
    } else {
      WithOpenZsLast(ws, zs);
    }
  }

  /** The open windows other than the one at m have distinct z values, bounded by the counter. */
  ghost predicate ZOkExcept(ws: seq<Win>, next: int, m: int) {
    && (forall i, j :: 0 <= i < j < |ws| && i != m && j != m && ws[i].status.Open? && ws[j].status.Open? ==>
      ws[i].z != ws[j].z)
    && (forall i :: 0 <= i < |ws| && i != m && ws[i].status.Open? ==> ws[i].z <= next)
  }

  ghost predicate ZOk(tab: Tab) { ZOkExcept(tab.windows, tab.next, -1) }

  /** takeZ: the new z tops all other open windows, whose relative order is kept. */
  lemma TakeZOnTop(ws: seq<Win>, next: int, m: int)
    requires ZOkExcept(ws, next, m)
    ensures var (ws', z) := TakeZ(ws, next);
      && ZOkExcept(ws', z, m)
      && (forall i :: 0 <= i < |ws| && i != m && ws[i].status.Open? ==> ws'[i].z < z)
      && (forall i, j ::
            0 <= i < |ws| && 0 <= j < |ws| && i != m && j != m && ws[i].status.Open? && ws[j].status.Open? ==>
              (ws[i].z < ws[j].z <==> ws'[i].z < ws'[j].z))
  {
    var zs := OpenZs(ws);
    var k := if 0 <= m < |ws| && ws[m].status.Open? then Pos(ws, m) else -1;
    forall i | 0 <= i < |ws| && ws[i].status.Open?
      ensures Pos(ws, i) < |zs| && zs[Pos(ws, i)] == ws[i].z && (i != m ==> Pos(ws, i) != k)
    {
      OpenZsAt(ws, i);
      if 0 <= m < |ws| && ws[m].status.Open? { OpenZsAt(ws, m); }
    }
    forall p, q | 0 <= p < q < |zs| && p != k && q != k ensures zs[p] != zs[q] {
      var i := OpenZsInverse(ws, p);
      var j := OpenZsInverse(ws, q);
    }
    forall p | 0 <= p < |zs| && p != k ensures zs[p] <= next {
      var i := OpenZsInverse(ws, p);
    }
    ZScale.AllocateOnTop(next, zs, k);
    var a := ZScale.Allocate(next, zs);
    forall i | 0 <= i < |ws| && ws[i].status.Open? ensures WithOpenZs(ws, a.zs)[i].z == a.zs[Pos(ws, i)] {
      WithOpenZsAt(ws, a.zs, i);
    }
  }

  /** restore, focus and adopt: the raised window is on top and the rest stays in order. */
  lemma RaiseOnTop(tab: Tab, i: nat, s: Status)
    requires i < |tab.windows| && ZOkExcept(tab.windows, tab.next, i)
    ensures var t := Raise(tab, i, s);
      && ZOk(t)
      && t.windows[i] == tab.windows[i].(status := s, z := t.next)
      && forall j :: 0 <= j < |t.windows| && j != i && t.windows[j].status.Open? ==> t.windows[j].z < t.windows[i].z
  {
    TakeZOnTop(tab.windows[i := tab.windows[i].(status := s)], tab.next, i);
  }

  /** With at most 38 open windows the raised one stays inside the window band. */
  lemma RaiseInBand(tab: Tab, i: nat, s: Status)
    requires i < |tab.windows|
    requires |OpenZs(tab.windows[i := tab.windows[i].(status := s)])| <= 38
    ensures Raise(tab, i, s).windows[i].z <= ZScale.WINDOW_MAX
  {
    ZScale.AllocateInBand(tab.next, OpenZs(tab.windows[i := tab.windows[i].(status := s)]));
  }

  // ------------------------------------------------------------ every entry point keeps ZOk

  /** A window in front of others that are all right. */
  ghost predicate Fits(w: Win, ws: seq<Win>, next: int) {
    w.status.Open? ==> w.z <= next && forall v :: v in ws && v.status.Open? ==> v.z != w.z
  }

  lemma ZOkJoin(w: Win, ws: seq<Win>, next: int)
    requires ZOkExcept(ws, next, -1) && Fits(w, ws, next)
    ensures ZOkExcept([w] + ws, next, -1)
  {
  }

  lemma ZOkSplit(ws: seq<Win>, next: int)
    requires ws != [] && ZOkExcept(ws, next, -1)
    ensures ZOkExcept(ws[1..], next, -1) && Fits(ws[0], ws[1..], next)
  {
    assert forall i :: 0 <= i < |ws| - 1 ==> ws[1..][i] == ws[i + 1];
  }

  lemma {:induction false} FilterKeepsZ(p: Win -> bool, ws: seq<Win>, next: int)
    requires ZOkExcept(ws, next, -1)
    ensures ZOkExcept(Filter(p, ws), next, -1)
  {
    if ws != [] {
      ZOkSplit(ws, next);
      FilterKeepsZ(p, ws[1..], next);
      if p(ws[0]) { ZOkJoin(ws[0], Filter(p, ws[1..]), next); }
    }
  }

  /** Different ids of the by-id map are windows at different places. */
  ghost predicate KnownOk(known: map<string, Win>, next: int) {
    && (forall a, b :: a in known && b in known && a != b && known[a].status.Open? && known[b].status.Open? ==>
      known[a].z != known[b].z)
    && (forall a :: a in known && known[a].status.Open? ==> known[a].z <= next)
  }

  lemma {:induction false} ReconcileKeepsZ(loaded: seq<Win>, known: map<string, Win>, next: int)
    requires KnownOk(known, next) && forall w :: w in loaded ==> !w.status.Open?
    ensures ZOkExcept(Reconcile(loaded, known), next, -1)
    ensures forall w :: w in Reconcile(loaded, known) && w.status.Open? ==>
      exists a :: a in known && known[a].status.Open? && known[a].z == w.z
  {
    if loaded != [] {
      var rest := known - {loaded[0].id};
      ReconcileKeepsZ(loaded[1..], rest, next);
      ZOkJoin(Reconcile(loaded, known)[0], Reconcile(loaded[1..], rest), next);
      assert forall w :: w in Reconcile(loaded, known) ==>
        w == Reconcile(loaded, known)[0] || w in Reconcile(loaded[1..], rest);
    }
  }

  lemma ByIdAt(ws: seq<Win>, id: string) returns (i: nat)
    requires id in ById(ws)
    ensures i < |ws| && ws[i] == ById(ws)[id] && ws[i].id == id
  {
    i :| 0 <= i < |ws| && ws[i] == ById(ws)[id];
  }

  lemma ZApart(ws: seq<Win>, next: int, i: nat, j: nat)
    requires ZOkExcept(ws, next, -1) && i < |ws| && j < |ws| && i != j && ws[i].status.Open?
    ensures ws[i].z <= next && (ws[j].status.Open? ==> ws[i].z != ws[j].z)
  {
    assert i < j || j < i;
  }

  lemma ByIdKnownOk(ws: seq<Win>, next: int)
    requires ZOkExcept(ws, next, -1)
    ensures KnownOk(ById(ws), next)
  {
    var known := ById(ws);
    forall a, b | a in known && b in known && a != b && known[a].status.Open? && known[b].status.Open?
      ensures known[a].z != known[b].z
    {
      var i := ByIdAt(ws, a);
      var j := ByIdAt(ws, b);
      ZApart(ws, next, i, j);
    }
    forall a | a in known && known[a].status.Open? ensures known[a].z <= next {
      var i := ByIdAt(ws, a);
      assert ws[i].z <= next;
    }
  }

  lemma LoadedAreShut(disk: Disk)
    ensures forall w :: w in LoadPersisted(disk) ==> !w.status.Open?
  {
  }

  lemma SyncKeepsZ(tab: Tab, disk: Disk)
    requires ZOk(tab)
    ensures ZOk(Sync(tab, disk))
  {
    ByIdKnownOk(tab.windows, tab.next);
    LoadedAreShut(disk);
    ReconcileKeepsZ(LoadPersisted(disk), ById(tab.windows), tab.next);
  }

  lemma FocusKeepsZ(tab: Tab, id: string)
    requires ZOk(tab)
    ensures ZOk(FocusWindow(tab, id)) && ZOk(RestoreWindow(tab, id))
  {
    var i := Find(tab.windows, id);
    if i.Some? {
      RaiseOnTop(tab, i.value, tab.windows[i.value].status);
      RaiseOnTop(tab, i.value, Open);
    }
  }

  lemma AddKeepsZ(tab: Tab, disk: Disk, id: string, serverId: string, name: string)
    requires ZOk(tab)
    ensures ZOk(AddWindow(tab, disk, id, serverId, name).0)
  {
    TakeZOnTop(tab.windows, tab.next, -1);
  }

  lemma {:induction false} PushedKeepsZ(ws: seq<Win>, serverId: string, name: string, sessions: seq<Session>, next: int)
    requires ZOkExcept(ws, next, -1)
    ensures ZOkExcept(PushMissing(ws, serverId, name, sessions), next, -1)
  {
    if sessions != [] {
      PushedKeepsZ(ws, serverId, name, sessions[..|sessions| - 1], next);
    }
  }

  lemma AdoptedKeepsZ(tab: Tab, serverId: string, name: string, sessions: seq<Session>)
    requires ZOk(tab) && sessions != []
    ensures ZOk(Adopted(tab, serverId, name, sessions))
  {
    var ws := PushIfMissing(tab.windows, serverId, name, sessions[0]);
    var i := Find(ws, sessions[0].sid).value;
    RaiseOnTop(tab.(windows := ws), i, Open);
    var tab1 := Raise(tab.(windows := ws), i, Open);
    PushedKeepsZ(tab1.windows, serverId, name, sessions[1..], tab1.next);
  }

  lemma AdoptKeepsZ(tab: Tab, disk: Disk, serverId: string, name: string, sessions: seq<Session>, freshId: string,
      now: int)
    requires ZOk(tab)
    ensures ZOk(AdoptOrAdd(tab, disk, serverId, name, sessions, freshId, now).0)
  {
    var adoptable := Adoptable(tab, disk, sessions, now);
    if adoptable == [] {
      AddKeepsZ(tab, disk, freshId, serverId, name);
    } else {
      AdoptedKeepsZ(tab, serverId, name, adoptable);
    }
  }

  /** One window leaves the open ones. */
  lemma ShutKeepsZ(ws: seq<Win>, next: int, i: nat, s: Status)
    requires ZOkExcept(ws, next, -1) && i < |ws| && !s.Open?
    ensures ZOkExcept(ws[i := ws[i].(status := s)], next, -1)
  {
    var ws' := ws[i := ws[i].(status := s)];
    assert forall j :: 0 <= j < |ws| && j != i ==> ws'[j] == ws[j];
  }

  /** A window that is not open joins. */
  lemma ShutAddedKeepsZ(ws: seq<Win>, next: int, w: Win)
    requires ZOkExcept(ws, next, -1) && !w.status.Open?
    ensures ZOkExcept(ws + [w], next, -1)
  {
    assert forall j :: 0 <= j < |ws| ==> (ws + [w])[j] == ws[j];
  }

  lemma OpenExternalKeepsZ(tab: Tab, disk: Disk, id: string, granted: bool)
    requires ZOk(tab)
    ensures ZOk(OpenExternal(tab, disk, id, granted).0)
  {
    var i := Find(tab.windows, id);
    if i.Some? { ShutKeepsZ(tab.windows, tab.next, i.value, Status.External); }
  }

  lemma FocusExternalKeepsZ(tab: Tab, disk: Disk, id: string, granted: bool)
    requires ZOk(tab)
    ensures ZOk(FocusExternal(tab, disk, id, granted).0)
  {
    var i := Find(tab.windows, id);
    if i.Some? {
      ShutKeepsZ(tab.windows, tab.next, i.value, Status.External);
      ShutKeepsZ(tab.windows, tab.next, i.value, Minimized);
    }
  }

  lemma AliveKeepsZ(tab: Tab, disk: Disk, id: string, serverId: string, name: string)
    requires ZOk(tab)
    ensures ZOk(PopupAliveSignal(tab, disk, id, serverId, name).0)
  {
    var i := Find(tab.windows, id);
    if i.Some? {
      ShutKeepsZ(tab.windows, tab.next, i.value, Status.External);
    } else {
      ShutAddedKeepsZ(tab.windows, tab.next, Win(id, serverId, Or(name, serverId), "", Status.External, 0));
    }
  }

  /** A popup's farewell, seen or polled, its page closing, and minimising. */
  lemma GoneKeepsZ(tab: Tab, id: string)
    requires ZOk(tab)
    ensures ZOk(PopupGoneSignal(tab, id)) && ZOk(PollPopup(tab, id)) && ZOk(ClosePopupPage(tab, id)) &&
      ZOk(MinimizeWindow(tab, id))
  {
    var i := Find(tab.windows, id);
    if i.Some? { ShutKeepsZ(tab.windows, tab.next, i.value, Minimized); }
  }

  lemma RenameKeepsZ(tab: Tab, disk: Disk, id: string, title: string)
    requires ZOk(tab)
    ensures ZOk(RenameWindow(tab, disk, id, title).0)
  {
    var i := Find(tab.windows, id);
    if i.Some? {
      var ws := tab.windows[i.value := tab.windows[i.value].(title := JsText.Trim(title))];
      assert forall j :: 0 <= j < |ws| ==> ws[j].status == tab.windows[j].status && ws[j].z == tab.windows[j].z;
    }
  }

  lemma CloseKeepsZ(tab: Tab, disk: Disk, id: string, now: int)
    requires ZOk(tab)
    ensures ZOk(CloseWindow(tab, disk, id, now).0)
  {
    FilterKeepsZ((w: Win) => w.id != id, tab.windows, tab.next);
  }

  lemma ReattachKeepsZ(tab: Tab, disk: Disk, id: string, serverId: string, name: string, title: string, granted: bool)
    requires ZOk(tab)
    ensures ZOk(ReattachOrphan(tab, disk, id, serverId, name, title, granted).0)
  {
    var cleared := disk.(tombs := disk.tombs - {id});
    if id in WinIds(tab.windows) {
      OpenExternalKeepsZ(tab, cleared, id, granted);
    } else {
      var w := Win(id, serverId, Or(name, serverId), title, Minimized, 0);
      var tab' := tab.(windows := tab.windows + [w]);
      ShutAddedKeepsZ(tab.windows, tab.next, w);
      OpenExternalKeepsZ(tab', Persist(tab', cleared), id, granted);
    }
  }

  lemma FocusServerKeepsZ(tab: Tab, disk: Disk, i: nat, granted: bool)
    requires ZOk(tab) && i < |tab.windows|
    ensures ZOk(FocusServer(tab, disk, i, granted).0)
  {
    FocusKeepsZ(tab, tab.windows[i].id);
    FocusExternalKeepsZ(tab, disk, tab.windows[i].id, granted);
  }

  lemma MemoryKeepsZ(a: Action, tab: Tab, disk: Disk)
    requires ZOk(tab) && InMemory(a)
    ensures ZOk(ActInMemory(a, tab, disk))
  {
    match a
    case SyncFromStorage => SyncKeepsZ(tab, disk);
    case Minimize(id) => GoneKeepsZ(tab, id);
    case Restore(id) => FocusKeepsZ(tab, id);
    case Focus(id) => FocusKeepsZ(tab, id);
    case Gone(id) => GoneKeepsZ(tab, id);
    case Poll(id) => GoneKeepsZ(tab, id);
    case PageCloses(id) => GoneKeepsZ(tab, id);
  }

  lemma PopupActKeepsZ(a: Action, now: int, tab: Tab, disk: Disk)
    requires ZOk(tab) && (a.External? || a.FocusPopup? || a.Alive? || a.Reattach?)
    ensures ZOk(ActOnTables(a, now, tab, disk).0)
  {
    match a
    case Reattach(id, serverId, name, title, granted) => ReattachKeepsZ(tab, disk, id, serverId, name, title, granted);
    case External(id, granted) => OpenExternalKeepsZ(tab, disk, id, granted);
    case FocusPopup(id, granted) => FocusExternalKeepsZ(tab, disk, id, granted);
    case Alive(id, serverId, name) => AliveKeepsZ(tab, disk, id, serverId, name);
  }

  lemma WindowActKeepsZ(a: Action, now: int, tab: Tab, disk: Disk)
    requires ZOk(tab) && (a.Add? || a.FocusServerAt? || a.Adopt? || a.Close? || a.Rename?)
    ensures ZOk(ActOnTables(a, now, tab, disk).0)
  {
    match a
    case Add(id, serverId, name) => AddKeepsZ(tab, disk, id, serverId, name);
    case FocusServerAt(i, granted) => if i < |tab.windows| { FocusServerKeepsZ(tab, disk, i, granted); }
    case Adopt(serverId, name, sessions, freshId) => AdoptKeepsZ(tab, disk, serverId, name, sessions, freshId, now);
    case Close(id) => CloseKeepsZ(tab, disk, id, now);
    case Rename(id, title) => RenameKeepsZ(tab, disk, id, title);
  }

  /** Over any entry point the open windows of the tab keep pairwise distinct z values. */
  lemma ActKeepsZ(a: Action, now: int, tab: Tab, disk: Disk)
    requires ZOk(tab)
    ensures ZOk(Act(a, now, tab, disk).0)
  {
    if InMemory(a) {
      MemoryKeepsZ(a, tab, disk);
    } else if a.External? || a.FocusPopup? || a.Alive? || a.Reattach? {
      PopupActKeepsZ(a, now, tab, disk);
    } else {
      WindowActKeepsZ(a, now, tab, disk);
    }
  }

  /** Over any run, in every tab: distinct z values of the open windows, none above the counter. */
  lemma {:induction false} RunKeepsZ(w: World, es: seq<Event>)
    requires Valid(w, es) && forall i :: i in w.tabs ==> ZOk(w.tabs[i])
    ensures forall i :: i in End(w, es).tabs ==> ZOk(End(w, es).tabs[i])
    decreases |es|
  {
    if es != [] {
      var e := es[0];
      if e.Do? {
        ActKeepsZ(e.act, e.now, w.tabs[e.tab], w.disk);
      }
      RunKeepsZ(Step(w, e), es[1..]);
    }
  }

  // ------------------------------------------------------------ every run stays in the window band

  lemma {:induction false} SameOpen(ws: seq<Win>, ws': seq<Win>)
    requires |ws| == |ws'| && forall i :: 0 <= i < |ws| ==> ws[i].status == ws'[i].status
    ensures |OpenZs(ws)| == |OpenZs(ws')|
  {
    if ws != [] {
      var n := |ws| - 1;
      assert ws[n].status == ws'[n].status;
      SameOpen(ws[..n], ws'[..n]);
    }
  }

  /** A raise counts the windows open after it; with at most 38 the counter stays in the band. */
  lemma RaiseStays(tab: Tab, i: nat, s: Status)
    requires i < |tab.windows| && |OpenZs(Raise(tab, i, s).windows)| <= 38
    ensures Raise(tab, i, s).next <= ZScale.WINDOW_MAX
  {
    var ws := tab.windows[i := tab.windows[i].(status := s)];
    SameOpen(ws, Raise(tab, i, s).windows);
    ZScale.AllocateInBand(tab.next, OpenZs(ws));
  }

  lemma {:induction false} PushedOpen(ws: seq<Win>, serverId: string, name: string, sessions: seq<Session>)
    ensures |OpenZs(PushMissing(ws, serverId, name, sessions))| == |OpenZs(ws)|
  {
    if sessions != [] {
      var n := |sessions| - 1;
      PushedOpen(ws, serverId, name, sessions[..n]);
      OnePushedOpen(PushMissing(ws, serverId, name, sessions[..n]), serverId, name, sessions[n]);
    }
  }

  lemma OnePushedOpen(ws: seq<Win>, serverId: string, name: string, s: Session)
    ensures |OpenZs(PushIfMissing(ws, serverId, name, s))| == |OpenZs(ws)|
  {
    var r := PushIfMissing(ws, serverId, name, s);
    if r != ws { assert r[..|ws|] == ws; }
  }

  lemma AdoptedStays(tab: Tab, serverId: string, name: string, sessions: seq<Session>)
    requires sessions != [] && |OpenZs(Adopted(tab, serverId, name, sessions).windows)| <= 38
    ensures Adopted(tab, serverId, name, sessions).next <= ZScale.WINDOW_MAX
  {
    var ws := PushIfMissing(tab.windows, serverId, name, sessions[0]);
    var i := Find(ws, sessions[0].sid).value;
    PushedOpen(Raise(tab.(windows := ws), i, Open).windows, serverId, name, sessions[1..]);
    RaiseStays(tab.(windows := ws), i, Open);
  }

  lemma AddStays(tab: Tab, disk: Disk, id: string, serverId: string, name: string)
    requires |OpenZs(tab.windows)| <= 38
    ensures AddWindow(tab, disk, id, serverId, name).0.next <= ZScale.WINDOW_MAX
  {
    ZScale.AllocateInBand(tab.next, OpenZs(tab.windows));
  }

  /** How many open windows an entry point finds when it takes a z; 0 where it takes none. */
  function Crowd(a: Action, now: int, tab: Tab, disk: Disk): nat {
    if Act(a, now, tab, disk).0.next == tab.next then 0
    else if a.Add? || (a.Adopt? && Adoptable(tab, disk, a.sessions, now) == []) then |OpenZs(tab.windows)|
    else |OpenZs(Act(a, now, tab, disk).0.windows)|
  }

  lemma FocusStays(tab: Tab, id: string)
    requires tab.next <= ZScale.WINDOW_MAX
    ensures |OpenZs(FocusWindow(tab, id).windows)| <= 38 ==> FocusWindow(tab, id).next <= ZScale.WINDOW_MAX
    ensures |OpenZs(RestoreWindow(tab, id).windows)| <= 38 ==> RestoreWindow(tab, id).next <= ZScale.WINDOW_MAX
  {
    var i := Find(tab.windows, id);
    if i.Some? {
      var s := tab.windows[i.value].status;
      if |OpenZs(Raise(tab, i.value, s).windows)| <= 38 { RaiseStays(tab, i.value, s); }
      if |OpenZs(Raise(tab, i.value, Open).windows)| <= 38 { RaiseStays(tab, i.value, Open); }
    }
  }

  /** The entry points of popups and of one window's record take no z. */
  lemma TakesNoZ(tab: Tab, disk: Disk, id: string, serverId: string, name: string, title: string, granted: bool)
    ensures OpenExternal(tab, disk, id, granted).0.next == tab.next
    ensures FocusExternal(tab, disk, id, granted).0.next == tab.next
    ensures PopupAliveSignal(tab, disk, id, serverId, name).0.next == tab.next
    ensures RenameWindow(tab, disk, id, title).0.next == tab.next
  {
  }

  lemma CloseTakesNoZ(tab: Tab, disk: Disk, id: string, now: int)
    ensures CloseWindow(tab, disk, id, now).0.next == tab.next
  {
  }

  lemma ReattachTakesNoZ(tab: Tab, disk: Disk, id: string, serverId: string, name: string, title: string, granted: bool)
    ensures ReattachOrphan(tab, disk, id, serverId, name, title, granted).0.next == tab.next
  {
  }

  lemma MemoryStays(a: Action, tab: Tab, disk: Disk)
    requires InMemory(a) && tab.next <= ZScale.WINDOW_MAX
    requires ActInMemory(a, tab, disk).next != tab.next ==> |OpenZs(ActInMemory(a, tab, disk).windows)| <= 38
    ensures ActInMemory(a, tab, disk).next <= ZScale.WINDOW_MAX
  {
    if a.Restore? || a.Focus? { FocusStays(tab, a.id); }
  }

  lemma AdoptStays(tab: Tab, disk: Disk, a: Action, now: int)
    requires a.Adopt? && tab.next <= ZScale.WINDOW_MAX && Crowd(a, now, tab, disk) <= 38
    ensures Act(a, now, tab, disk).0.next <= ZScale.WINDOW_MAX
  {
    var adoptable := Adoptable(tab, disk, a.sessions, now);
    if Act(a, now, tab, disk).0.next != tab.next {
      if adoptable == [] {
        AddStays(tab, disk, a.freshId, a.serverId, a.name);
      } else {
        AdoptedStays(tab, a.serverId, a.name, adoptable);
      }
    }
  }

  lemma FocusServerStays(tab: Tab, disk: Disk, i: nat, granted: bool)
    requires i < |tab.windows| && tab.next <= ZScale.WINDOW_MAX
    requires FocusServer(tab, disk, i, granted).0.next != tab.next ==>
      |OpenZs(FocusServer(tab, disk, i, granted).0.windows)| <= 38
    ensures FocusServer(tab, disk, i, granted).0.next <= ZScale.WINDOW_MAX
  {
    FocusStays(tab, tab.windows[i].id);
    TakesNoZ(tab, disk, tab.windows[i].id, "", "", "", granted);
  }

  lemma ActStays(a: Action, now: int, tab: Tab, disk: Disk)
    requires tab.next <= ZScale.WINDOW_MAX && Crowd(a, now, tab, disk) <= 38
    ensures Act(a, now, tab, disk).0.next <= ZScale.WINDOW_MAX
  {
    if InMemory(a) {
      MemoryStays(a, tab, disk);
    } else {
      match a
      case Add(id, serverId, name) =>
        if Act(a, now, tab, disk).0.next != tab.next { AddStays(tab, disk, id, serverId, name); }
      case FocusServerAt(i, granted) => if i < |tab.windows| { FocusServerStays(tab, disk, i, granted); }
      case Adopt(_, _, _, _) => AdoptStays(tab, disk, a, now);
      case Close(id) => CloseTakesNoZ(tab, disk, id, now);
      case Reattach(id, serverId, name, title, granted) => ReattachTakesNoZ(tab, disk, id, serverId, name, title,
        granted);
      case External(id, granted) => TakesNoZ(tab, disk, id, "", "", "", granted);
      case FocusPopup(id, granted) => TakesNoZ(tab, disk, id, "", "", "", granted);
      case Alive(id, serverId, name) => TakesNoZ(tab, disk, id, serverId, name, "", false);
      case Rename(id, title) => TakesNoZ(tab, disk, id, "", "", title, false);
    }
  }

  /** No entry point of the run finds more than 38 open windows when it takes a z. */
  ghost predicate Roomy(w: World, es: seq<Event>)
    requires Valid(w, es)
    decreases |es|
  {
    es != [] ==>
      && (es[0].Do? ==> Crowd(es[0].act, es[0].now, w.tabs[es[0].tab], w.disk) <= 38)
      && Roomy(Step(w, es[0]), es[1..])
  }

  ghost predicate InBand(tab: Tab) { ZOk(tab) && tab.next <= ZScale.WINDOW_MAX }

  /** Over such a run every open window of every tab stays at or below the top of the window band. */
  lemma {:induction false} RunStaysInBand(w: World, es: seq<Event>)
    requires Valid(w, es) && Roomy(w, es) && forall i :: i in w.tabs ==> InBand(w.tabs[i])
    ensures forall i :: i in End(w, es).tabs ==> InBand(End(w, es).tabs[i])
    ensures forall i, v :: i in End(w, es).tabs && v in End(w, es).tabs[i].windows && v.status.Open? ==>
      v.z <= ZScale.WINDOW_MAX
    decreases |es|
  {
    if es != [] {
      var e := es[0];
      if e.Do? {
        ActKeepsZ(e.act, e.now, w.tabs[e.tab], w.disk);
        ActStays(e.act, e.now, w.tabs[e.tab], w.disk);
      }
      RunStaysInBand(Step(w, e), es[1..]);
    }
  }
}
