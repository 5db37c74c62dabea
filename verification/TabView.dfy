/**
 What a tab shows (src/stores/sshTerminals.js): after a page load, after a storage event, after its user
 asks for a server, and while a window lives in a popup.
 */
module TabView {
  import opened Wrappers
  import opened Seqs
  import opened TabProtocol
  import opened TabRuns
  import JsText
  import OM = OrderedMap
  import ZScale

  // ------------------------------------------------------------ page load and storage event

  /**
   A page load goes through the table in order: a row with an id and a server that is not tombstoned gets
   a minimised window, named after the server if it has no name; any other row gets none.
   */
  lemma FreshRow(table: seq<Rec>, tombs: map<string, int>, r: Rec)
    ensures Fresh(Disk([], tombs)).windows == []
    ensures Fresh(Disk(table + [r], tombs)).windows == Fresh(Disk(table, tombs)).windows +
      if r.id != "" && r.serverId != "" && r.id !in tombs
      then [Win(r.id, r.serverId, if r.name != "" then r.name else r.serverId, r.title, Minimized, 0)]
      else []
  {
    var kept := (r: Rec) => r.id != "" && r.serverId != "" && r.id !in tombs;
    var a, b := Fresh(Disk(table, tombs)).windows, Fresh(Disk(table + [r], tombs)).windows;
    assert a == Map(Loaded, Filter(kept, table)) && b == Map(Loaded, Filter(kept, table + [r]));
    FilterAppend(kept, table, [r]);
    assert Filter(kept, [r]) == if kept(r) then [r] else [] by { assert [r][1..] == []; }
    MapAppend(Loaded, Filter(kept, table), Filter(kept, [r]));
  }

  /** The last window of an id is the one a map of windows by id holds. */
  lemma {:induction false} ByIdHoldsLast(ws: seq<Win>, j: nat)
    requires j < |ws| && forall k :: j < k < |ws| ==> ws[k].id != ws[j].id
    ensures ws[j].id in ById(ws) && ById(ws)[ws[j].id] == ws[j]
  {
    assert ws[j] in ws;
    if j + 1 < |ws| { ByIdHoldsLast(ws[..|ws| - 1], j); }
  }

  lemma {:induction false} ReconcileAt(loaded: seq<Win>, known: map<string, Win>, i: nat)
    requires i < |loaded|
    ensures var l := loaded[i];
      Reconcile(loaded, known)[i] ==
      if l.id in known && l.id !in WinIds(loaded[..i])
      then known[l.id].(serverId := l.serverId, name := l.name, title := l.title) else l
  {
    if i > 0 {
      var rest := known - {loaded[0].id};
      ReconcileAt(loaded[1..], rest, i - 1);
      assert Reconcile(loaded, known)[i] == Reconcile(loaded[1..], rest)[i - 1];
      assert loaded[..i] == [loaded[0]] + loaded[1..][..i - 1];
      IdsOfCons(loaded[0], loaded[1..][..i - 1]);
    } else {
      assert WinIds(loaded[..0]) == {};
    }
  }

  lemma IdsOfCons(w: Win, ws: seq<Win>)
    ensures forall id :: id in WinIds([w] + ws) <==> id == w.id || id in WinIds(ws)
  {
    assert w in [w] + ws;
    forall id | id in WinIds(ws) ensures id in WinIds([w] + ws) {
      var v :| v in ws && v.id == id;
      assert v in [w] + ws;
    }
  }

  /** A storage event touches nothing but the windows, and shows the rows of a page load one for one. */
  lemma SyncIsFreshRows(tab: Tab, disk: Disk)
    ensures |Sync(tab, disk).windows| == |Fresh(disk).windows|
    ensures Sync(tab, disk) == tab.(windows := Sync(tab, disk).windows)
  {
  }

  /** A row the tab has no window of comes in as on a page load. */
  lemma SyncTakesNew(tab: Tab, disk: Disk, i: nat)
    requires i < |Fresh(disk).windows| && Fresh(disk).windows[i].id !in WinIds(tab.windows)
    ensures |Sync(tab, disk).windows| == |Fresh(disk).windows|
    ensures Sync(tab, disk).windows[i] == Fresh(disk).windows[i]
  {
    ReconcileAt(LoadPersisted(disk), ById(tab.windows), i);
  }

  /** A row the tab has a window of keeps that window's status and z, and follows the disk in the rest. */
  lemma SyncKeepsStatus(tab: Tab, disk: Disk, i: nat, j: nat)
    requires i < |Fresh(disk).windows| && j < |tab.windows| && tab.windows[j].id == Fresh(disk).windows[i].id
    requires forall k :: 0 <= k < i ==> Fresh(disk).windows[k].id != tab.windows[j].id
    requires forall k :: j < k < |tab.windows| ==> tab.windows[k].id != tab.windows[j].id
    ensures |Sync(tab, disk).windows| == |Fresh(disk).windows|
    ensures Sync(tab, disk).windows[i] ==
      Fresh(disk).windows[i].(status := tab.windows[j].status, z := tab.windows[j].z)
  {
    ByIdHoldsLast(tab.windows, j);
    ReconcileAt(LoadPersisted(disk), ById(tab.windows), i);
  }

  // ------------------------------------------------------------ adopting live sessions

  lemma PushedIds(ws: seq<Win>, serverId: string, name: string, s: Session)
    ensures WinIds(PushIfMissing(ws, serverId, name, s)) == WinIds(ws) + {s.sid}
  {
    var r := PushIfMissing(ws, serverId, name, s);
    forall id | id in WinIds(ws) ensures id in WinIds(r) {
      var w :| w in ws && w.id == id;
      assert w in r;
    }
  }

  function Sids(ss: seq<Session>): set<string> { set s | s in ss :: s.sid }

  lemma {:induction false} PushedAllIds(ws: seq<Win>, serverId: string, name: string, ss: seq<Session>)
    ensures WinIds(PushMissing(ws, serverId, name, ss)) == WinIds(ws) + Sids(ss)
  {
    if ss != [] {
      var before, s := ss[..|ss| - 1], ss[|ss| - 1];
      PushedAllIds(ws, serverId, name, before);
      PushedIds(PushMissing(ws, serverId, name, before), serverId, name, s);
      assert ss == before + [s];
    }
  }

  /** Windows that differ in status and z only have the same ids. */
  lemma SameIds(a: seq<Win>, b: seq<Win>)
    requires |a| == |b| && forall i :: 0 <= i < |a| ==> a[i].id == b[i].id
    ensures WinIds(a) == WinIds(b)
  {
    forall id | id in WinIds(a) ensures id in WinIds(b) {
      var i :| 0 <= i < |a| && a[i].id == id;
      assert b[i] in b;
    }
    forall id | id in WinIds(b) ensures id in WinIds(a) {
      var i :| 0 <= i < |b| && b[i].id == id;
      assert a[i] in a;
    }
  }

  lemma RaisedIds(tab: Tab, i: nat, s: Status)
    requires i < |tab.windows|
    ensures WinIds(Raise(tab, i, s).windows) == WinIds(tab.windows)
  {
    var ws := tab.windows[i := tab.windows[i].(status := s)];
    SameIds(ws, tab.windows);
    var (ws', z) := TakeZ(ws, tab.next);
    SameIds(ws', ws);
    SameIds(ws'[i := ws'[i].(z := z)], ws');
  }

  lemma AdoptedIds(tab: Tab, serverId: string, name: string, ss: seq<Session>)
    requires ss != []
    ensures WinIds(Adopted(tab, serverId, name, ss).windows) == WinIds(tab.windows) + Sids(ss)
  {
    var tab0 := tab.(windows := PushIfMissing(tab.windows, serverId, name, ss[0]));
    var i := Find(tab0.windows, ss[0].sid).value;
    PushedIds(tab.windows, serverId, name, ss[0]);
    RaisedIds(tab0, i, Open);
    PushedAllIds(Raise(tab0, i, Open).windows, serverId, name, ss[1..]);
    SidsOfFirst(ss);
  }

  lemma SidsOfFirst(ss: seq<Session>)
    requires ss != []
    ensures Sids(ss) == {ss[0].sid} + Sids(ss[1..])
  {
    assert ss == [ss[0]] + ss[1..];
  }

  lemma AddedIds(tab: Tab, disk: Disk, id: string, serverId: string, name: string)
    ensures WinIds(AddWindow(tab, disk, id, serverId, name).0.windows) == WinIds(tab.windows) + {id}
  {
    var (ws, z) := TakeZ(tab.windows, tab.next);
    SameIds(ws, tab.windows);
    var w := Win(id, serverId, name, "", Open, z);
    assert w in ws + [w] && forall v :: v in ws + [w] <==> v in ws || v == w;
  }

  /** The user closed this session's window: on any page within the last week, or here within 12 minutes. */
  predicate ClosedByUser(tab: Tab, disk: Disk, id: string, now: int) {
    id in disk.tombs || (id in tab.recent && tab.recent[id] != 0 && now - tab.recent[id] <= 720000)
  }

  /**
   Asking for a server of which the tab has no window opens a window for each live session the user did
   not close, and for no other; only when there is none is a new terminal started.
   */
  lemma AdoptionIff(tab: Tab, disk: Disk, serverId: string, name: string, sessions: seq<Session>, freshId: string,
      now: int, id: string)
    ensures
      var none := forall s :: s in sessions ==> ClosedByUser(tab, disk, s.sid, now);
      id in WinIds(AdoptOrAdd(tab, disk, serverId, name, sessions, freshId, now).0.windows) <==>
        || id in WinIds(tab.windows)
        || (id in Sids(sessions) && !ClosedByUser(tab, disk, id, now))
        || (none && id == freshId)
  {
    var adoptable := Adoptable(tab, disk, sessions, now);
    forall s ensures s in adoptable <==> s in sessions && !ClosedByUser(tab, disk, s.sid, now) {
    }
    assert adoptable == [] <==> forall s :: s in sessions ==> ClosedByUser(tab, disk, s.sid, now) by {
      assert adoptable != [] ==> adoptable[0] in adoptable;
    }
    if adoptable == [] {
      AddedIds(tab, disk, freshId, serverId, name);
    } else {
      AdoptedIds(tab, serverId, name, adoptable);
    }
  }

  lemma {:induction false} PushedLook(ws: seq<Win>, serverId: string, name: string, ss: seq<Session>)
    ensures var r := PushMissing(ws, serverId, name, ss);
      && ws <= r
      && forall j :: |ws| <= j < |r| ==>
           r[j].id !in WinIds(ws) && exists s :: s in ss && r[j] == Win(s.sid, serverId, name, s.title, Minimized, 0)
  {
    if ss != [] {
      var before, s := ss[..|ss| - 1], ss[|ss| - 1];
      PushedLook(ws, serverId, name, before);
      var r := PushMissing(ws, serverId, name, before);
      assert forall w :: w in ws ==> w in r;
      assert s in ss && forall t :: t in before ==> t in ss;
    }
  }

  lemma RaisedLook(tab: Tab, i: nat, s: Status)
    requires i < |tab.windows|
    ensures var r := Raise(tab, i, s).windows;
      && |r| == |tab.windows| && r[i] == tab.windows[i].(status := s, z := r[i].z)
      && forall j :: 0 <= j < |r| && j != i ==> r[j] == tab.windows[j].(z := r[j].z)
  {
  }

  /** The windows there were stay, each where it was; what an adoption adds comes after them. */
  lemma AdoptedLook(tab: Tab, serverId: string, name: string, ss: seq<Session>, j: nat)
    requires ss != [] && j < |Adopted(tab, serverId, name, ss).windows|
    ensures |tab.windows| <= |Adopted(tab, serverId, name, ss).windows|
    ensures
      var w := Adopted(tab, serverId, name, ss).windows[j];
      if j < |tab.windows| then
        var was := tab.windows[j];
        w == was.(z := w.z) || (was.id == ss[0].sid && w == was.(status := Open, z := w.z))
      else if w.id == ss[0].sid then w == Win(w.id, serverId, name, ss[0].title, Open, w.z)
      else exists s :: s in ss && w == Win(s.sid, serverId, name, s.title, Minimized, 0)
  {
    var tab0 := tab.(windows := PushIfMissing(tab.windows, serverId, name, ss[0]));
    var i := Find(tab0.windows, ss[0].sid).value;
    var tab1 := Raise(tab0, i, Open);
    RaisedLook(tab0, i, Open);
    PushedLook(tab1.windows, serverId, name, ss[1..]);
    SameIds(tab1.windows, tab0.windows);
    assert ss[0].sid in WinIds(tab1.windows);
    if j >= |tab1.windows| {
      var s :| s in ss[1..] && Adopted(tab, serverId, name, ss).windows[j] ==
        Win(s.sid, serverId, name, s.title, Minimized, 0);
      assert s in ss;
    } else if j >= |tab.windows| {
      assert tab0.windows[j].id == ss[0].sid;
      FindFirst(tab.windows, tab0.windows[j]);
    }
  }

  /** The last window is found when no earlier one has its id. */
  lemma {:induction false} FindFirst(ws: seq<Win>, w: Win)
    requires w.id !in WinIds(ws)
    ensures Find(ws + [w], w.id) == Some(|ws|)
  {
    if ws != [] {
      assert ws[0] in ws && (ws + [w])[1..] == ws[1..] + [w];
      assert forall v :: v in ws[1..] ==> v in ws;
      FindFirst(ws[1..], w);
    } else {
      assert ws + [w] == [w];
    }
  }

  lemma {:induction false} FirstKept<T(!new)>(p: T -> bool, xs: seq<T>, k: nat)
    requires k < |xs| && p(xs[k]) && forall j :: 0 <= j < k ==> !p(xs[j])
    ensures Filter(p, xs) != [] && Filter(p, xs)[0] == xs[k]
  {
    if k > 0 { FirstKept(p, xs[1..], k - 1); }
  }

  /**
   Of the sessions, given most recently active first, the first one not closed comes to the front; the
   others wait minimised; each new window carries its session's label and the server's name.
   */
  lemma AdoptionLook(tab: Tab, disk: Disk, serverId: string, name: string, sessions: seq<Session>, freshId: string,
      now: int, k: nat, j: nat)
    requires k < |sessions| && !ClosedByUser(tab, disk, sessions[k].sid, now)
    requires forall i :: 0 <= i < k ==> ClosedByUser(tab, disk, sessions[i].sid, now)
    requires j < |AdoptOrAdd(tab, disk, serverId, name, sessions, freshId, now).0.windows|
    ensures
      var w := AdoptOrAdd(tab, disk, serverId, name, sessions, freshId, now).0.windows[j];
      if j < |tab.windows| then
        var was := tab.windows[j];
        w == was.(z := w.z) || (was.id == sessions[k].sid && w == was.(status := Open, z := w.z))
      else if w.id == sessions[k].sid then w == Win(w.id, serverId, name, sessions[k].title, Open, w.z)
      else exists s :: s in sessions && w == Win(s.sid, serverId, name, s.title, Minimized, 0)
  {
    FirstKept((s: Session) => s.sid !in disk.tombs && !RecentlyClosed(tab, s.sid, now), sessions, k);
    var adoptable := Adoptable(tab, disk, sessions, now);
    AdoptedLook(tab, serverId, name, adoptable, j);
  }

  /** With nothing to adopt one open window is added, named as it was asked for. */
  lemma NewTerminalLook(tab: Tab, disk: Disk, id: string, serverId: string, name: string)
    ensures var r := AddWindow(tab, disk, id, serverId, name).0.windows;
      && |r| == |tab.windows| + 1 && r[|tab.windows|] == Win(id, serverId, name, "", Open, r[|tab.windows|].z)
      && forall j :: 0 <= j < |tab.windows| ==> r[j] == tab.windows[j].(z := r[j].z)
  {
  }

  // ------------------------------------------------------------ closing

  /**
   Closing a window takes it, and no other, from the tab; the closure is remembered for a week in the
   shared log and for 12 minutes in the tab, and older entries of both are dropped.
   */
  lemma CloseForgetsOnlyTheOld(tab: Tab, disk: Disk, id: string, now: int, k: string, w: Win)
    ensures
      var (tab', disk') := CloseWindow(tab, disk, id, now);
      && (w in tab'.windows <==> w in tab.windows && w.id != id)
      && (k in disk'.tombs <==> k == id || (k in disk.tombs && now - disk.tombs[k] <= 604800000))
      && (k in tab'.recent <==> k == id || (k in tab.recent && now - tab.recent[k] <= 720000))
      && (k in disk'.tombs ==> disk'.tombs[k] == if k == id then now else disk.tombs[k])
      && (k in tab'.recent ==> tab'.recent[k] == if k == id then now else tab.recent[k])
  {
  }

  // ------------------------------------------------------------ one window of the tab

  /** The window at i is the tab's window of its id. */
  ghost predicate Sole(ws: seq<Win>, i: nat)
    requires i < |ws|
  {
    forall j :: 0 <= j < |ws| && j != i ==> ws[j].id != ws[i].id
  }

  lemma SoleIsFound(ws: seq<Win>, i: nat)
    requires i < |ws| && Sole(ws, i)
    ensures Find(ws, ws[i].id) == Some(i)
  {
    assert ws[i] in ws;
  }

  /** What the three buttons of a chip do: no other window changes its status. */
  lemma ButtonsSetStatus(tab: Tab, i: nat, j: nat)
    requires i < |tab.windows| && Sole(tab.windows, i) && j < |tab.windows|
    ensures
      var id, was := tab.windows[i].id, tab.windows[j].status;
      && |MinimizeWindow(tab, id).windows| == |RestoreWindow(tab, id).windows| == |FocusWindow(tab, id).windows|
      == |tab.windows|
      && MinimizeWindow(tab, id).windows[j].status == (if j == i then Minimized else was)
      && RestoreWindow(tab, id).windows[j].status == (if j == i then Open else was)
      && FocusWindow(tab, id).windows[j].status == was
  {
    SoleIsFound(tab.windows, i);
    RaisedLook(tab, i, Open);
    RaisedLook(tab, i, tab.windows[i].status);
  }

  /** No popup of that window is known, or it is known to be closed. */
  predicate NoPopup(tab: Tab, id: string) { id in tab.popups ==> tab.popups[id] }

  /** A window sent to a popup is external, and while the popup lives asking for it again changes nothing. */
  lemma PopupStays(tab: Tab, disk: Disk, i: nat, granted: bool)
    requires i < |tab.windows| && Sole(tab.windows, i) && NoPopup(tab, tab.windows[i].id)
    ensures
      var w := tab.windows[i];
      var (out, saved) := OpenExternal(tab, disk, w.id, true);
      && out.windows == tab.windows[i := w.(status := Status.External)] && out.popups == tab.popups[w.id := false]
      && OpenExternal(out, saved, w.id, granted) == (out, saved)
      && FocusExternal(out, saved, w.id, granted) == (out, saved)
      && PollPopup(out, w.id) == out
  {
    SoleIsFound(tab.windows, i);
    var (out, saved) := OpenExternal(tab, disk, tab.windows[i].id, true);
    assert Sole(out.windows, i);
    SoleIsFound(out.windows, i);
  }

  /** When the popup's page is gone, by its farewell or by the poll, its external window is minimised. */
  lemma PopupComesBack(tab: Tab, i: nat)
    requires i < |tab.windows| && Sole(tab.windows, i) && tab.windows[i].status == Status.External
    ensures
      var w := tab.windows[i];
      var back := tab.(windows := tab.windows[i := w.(status := Minimized)], popups := tab.popups - {w.id});
      && PopupGoneSignal(tab, w.id) == back
      && (w.id in tab.popups ==> PollPopup(ClosePopupPage(tab, w.id), w.id) == back)
  {
    SoleIsFound(tab.windows, i);
    var id := tab.windows[i].id;
    var shut := ClosePopupPage(tab, id);
    assert shut.popups - {id} == tab.popups - {id};
  }

  /** Asking for the popup of a window whose popup is not known to live: it comes, or the window is minimised. */
  lemma FocusPopupReopens(tab: Tab, disk: Disk, i: nat, granted: bool)
    requires i < |tab.windows| && Sole(tab.windows, i) && NoPopup(tab, tab.windows[i].id)
    ensures
      var w := tab.windows[i];
      var r := FocusExternal(tab, disk, w.id, granted).0;
      && r.windows == tab.windows[i := w.(status := if granted then Status.External else Minimized)]
      && r.popups == if granted then tab.popups[w.id := false] else tab.popups - {w.id}
  {
    SoleIsFound(tab.windows, i);
  }

  /**
   A popup's sign of life: a minimised window becomes external and any other stays; a window the tab has
   lost is made again when the signal says which server it is of.
   */
  lemma SignOfLife(tab: Tab, disk: Disk, id: string, serverId: string, name: string, i: nat)
    ensures id !in WinIds(tab.windows) ==>
      PopupAliveSignal(tab, disk, id, serverId, name).0.windows ==
      tab.windows + if serverId == "" then []
        else [Win(id, serverId, if name != "" then name else serverId, "", Status.External, 0)]
    ensures i < |tab.windows| && Sole(tab.windows, i) && tab.windows[i].id == id ==>
      var w := tab.windows[i];
      PopupAliveSignal(tab, disk, id, serverId, name).0.windows ==
      tab.windows[i := if w.status == Minimized then w.(status := Status.External) else w]
  {
    if i < |tab.windows| && Sole(tab.windows, i) { SoleIsFound(tab.windows, i); }
  }

  /** A session reattached comes back in a popup, with the label the gateway remembers. */
  lemma ReattachLook(tab: Tab, disk: Disk, id: string, serverId: string, name: string, title: string, granted: bool)
    requires id !in WinIds(tab.windows) && NoPopup(tab, id)
    ensures
      var w := Win(id, serverId, if name != "" then name else serverId, title, Status.External, 0);
      ReattachOrphan(tab, disk, id, serverId, name, title, granted).0.windows == tab.windows + [w]
  {
    var w := Win(id, serverId, Or(name, serverId), title, Minimized, 0);
    FindFirst(tab.windows, w);
    assert (tab.windows + [w])[|tab.windows| := w.(status := Status.External)] ==
      tab.windows + [w.(status := Status.External)];
  }

  // ------------------------------------------------------------ what other pages see

  lemma {:induction false} FreshHas(table: seq<Rec>, tombs: map<string, int>, r: Rec)
    requires r in table && r.id != "" && r.serverId != "" && r.id !in tombs
    ensures Win(r.id, r.serverId, if r.name != "" then r.name else r.serverId, r.title, Minimized, 0) in
      Fresh(Disk(table, tombs)).windows
  {
    var before, last := table[..|table| - 1], table[|table| - 1];
    assert table == before + [last];
    FreshRow(before, tombs, last);
    if r in before { FreshHas(before, tombs, r); }
  }

  /** A window that is saved shows on every page loaded next, unless it was closed. */
  lemma SavedIsShown(tab: Tab, disk: Disk, i: nat)
    requires i < |tab.windows| && Sole(tab.windows, i)
    requires tab.windows[i].id !in tab.removed && tab.windows[i].id !in disk.tombs
    requires tab.windows[i].id != "" && tab.windows[i].serverId != ""
    ensures
      var w := tab.windows[i];
      Win(w.id, w.serverId, if w.name != "" then w.name else w.serverId, w.title, Minimized, 0) in
      Fresh(Persist(tab, disk)).windows
  {
    var w := tab.windows[i];
    PersistSpec(tab, disk);
    ByIdHoldsLast(tab.windows, i);
    assert w in tab.windows && w.id in RecIds(Persist(tab, disk).table);
    var r :| r in Persist(tab, disk).table && r.id == w.id;
    FreshHas(Persist(tab, disk).table, disk.tombs, r);
  }

  /** A new label, trimmed, and a new terminal show on every page loaded next. */
  lemma RenameIsShown(tab: Tab, disk: Disk, i: nat, title: string)
    requires i < |tab.windows| && Sole(tab.windows, i)
    requires tab.windows[i].id !in tab.removed && tab.windows[i].id !in disk.tombs
    requires tab.windows[i].id != "" && tab.windows[i].serverId != ""
    ensures
      var w := tab.windows[i];
      var (tab', disk') := RenameWindow(tab, disk, w.id, title);
      && tab' == tab.(windows := tab.windows[i := w.(title := JsText.Trim(title))])
      && Win(w.id, w.serverId, if w.name != "" then w.name else w.serverId, JsText.Trim(title), Minimized, 0) in
         Fresh(disk').windows
  {
    SoleIsFound(tab.windows, i);
    var tab' := RenameWindow(tab, disk, tab.windows[i].id, title).0;
    assert Sole(tab'.windows, i);
    SavedIsShown(tab', disk, i);
  }

  lemma NewTerminalIsShown(tab: Tab, disk: Disk, id: string, serverId: string, name: string)
    requires id !in WinIds(tab.windows) && id !in tab.removed && id !in disk.tombs && id != "" && serverId != ""
    ensures Win(id, serverId, if name != "" then name else serverId, "", Minimized, 0) in
      Fresh(AddWindow(tab, disk, id, serverId, name).1).windows
  {
    var tab' := AddWindow(tab, disk, id, serverId, name).0;
    NewTerminalLook(tab, disk, id, serverId, name);
    forall j | 0 <= j < |tab.windows| ensures tab'.windows[j].id != id {
      assert tab.windows[j] in tab.windows;
    }
    SavedIsShown(tab', disk, |tab.windows|);
  }

  // ------------------------------------------------------------ the order of the table

  const ROW_ID: Rec -> string := (r: Rec) => r.id

  const WINDOW_ID: Win -> string := (w: Win) => w.id

  lemma {:induction false} TableOrder(table: seq<Rec>)
    requires DistinctIds(table)
    ensures OM.Keys(FromTable(table)) == Map(ROW_ID, table)
  {
    if table != [] {
      var before, r := table[..|table| - 1], table[|table| - 1];
      assert table == before + [r];
      TableOrder(before);
      FromTableSpec(before);
      assert r.id !in RecIds(before);
      assert OM.Keys(FromTable(table)) == OM.Keys(FromTable(before)) + [r.id];
      MapAppend(ROW_ID, before, [r]);
    }
  }

  lemma PutOrder(m: OM.Entries<string, Rec>, r: Rec)
    ensures OM.Keys(OM.Put(m, r.id, r)) == OM.Keys(m) + if r.id in OM.Keys(m) then [] else [r.id]
  {
    if r.id !in OM.Keys(m) { assert OM.Keys(m + [(r.id, r)]) == OM.Keys(m) + [r.id]; }
  }

  ghost predicate DistinctWins(ws: seq<Win>) { forall i, j :: 0 <= i < j < |ws| ==> ws[i].id != ws[j].id }

  lemma LastIsNew(before: seq<Win>, w: Win)
    requires DistinctWins(before + [w])
    ensures DistinctWins(before) && w.id !in WinIds(before)
  {
    var ws := before + [w];
    forall i, j | 0 <= i < j < |before| ensures before[i].id != before[j].id {
      assert ws[i].id != ws[j].id;
    }
    forall v | v in before ensures v.id != w.id {
      var i :| 0 <= i < |before| && before[i] == v;
      assert ws[i].id != ws[|before|].id;
    }
  }

  lemma PutNewWindow(m: OM.Entries<string, Rec>, before: seq<Win>, w: Win)
    requires Indexed(m) && w.id !in WinIds(before)
    ensures OM.Keys(PutWindows(m, before + [w])) ==
      OM.Keys(PutWindows(m, before)) + if w.id in OM.Keys(m) then [] else [w.id]
  {
    PutWindowsKeys(m, before);
    PutOrder(PutWindows(m, before), Meta(w));
    assert (before + [w])[..|before|] == before;
  }

  /** Windows new to the table come after its rows, in the order of the tab. */
  lemma {:induction false} WindowOrder(m: OM.Entries<string, Rec>, ws: seq<Win>, unsaved: string -> bool)
    requires Indexed(m) && DistinctWins(ws)
    requires forall id :: unsaved(id) <==> id !in OM.Keys(m)
    ensures OM.Keys(PutWindows(m, ws)) == OM.Keys(m) + Filter(unsaved, Map(WINDOW_ID, ws))
  {
    if ws != [] {
      var before, w := ws[..|ws| - 1], ws[|ws| - 1];
      assert ws == before + [w];
      LastIsNew(before, w);
      WindowOrder(m, before, unsaved);
      PutNewWindow(m, before, w);
      OneMoreUnsaved(before, w, unsaved);
      var more := if unsaved(w.id) then [w.id] else [];
      Joined(OM.Keys(m), Filter(unsaved, Map(WINDOW_ID, before)), more);
    } else {
      Joined(OM.Keys(m), [], []);
    }
  }

  lemma Joined(a: seq<string>, b: seq<string>, c: seq<string>)
    ensures (a + b) + c == a + (b + c) && a + [] == a
  {
  }

  lemma OneMoreUnsaved(before: seq<Win>, w: Win, unsaved: string -> bool)
    ensures Filter(unsaved, Map(WINDOW_ID, before + [w])) ==
      Filter(unsaved, Map(WINDOW_ID, before)) + if unsaved(w.id) then [w.id] else []
  {
    MapAppend(WINDOW_ID, before, [w]);
    assert Map(WINDOW_ID, [w]) == [w.id];
    FilterAppend(unsaved, Map(WINDOW_ID, before), [w.id]);
    OM.FilterOne(unsaved, w.id);
  }

  /**
   What is saved keeps its order: the rows of the disk as they were, then the tab's windows that were not on
   it, without those removed here or tombstoned.
   */
  lemma PersistKeepsOrder(tab: Tab, disk: Disk, unsaved: string -> bool, kept: string -> bool)
    requires DistinctIds(disk.table)
    requires DistinctWins(tab.windows)
    requires forall id :: unsaved(id) <==> forall r :: r in disk.table ==> r.id != id
    requires forall id :: kept(id) <==> id !in tab.removed && id !in disk.tombs
    ensures Map(ROW_ID, Persist(tab, disk).table) ==
      Filter(kept, Map(ROW_ID, disk.table) + Filter(unsaved, Map(WINDOW_ID, tab.windows)))
  {
    var base := FromTable(disk.table);
    var m := PutWindows(base, tab.windows);
    FromTableSpec(disk.table);
    TableOrder(disk.table);
    PutWindowsKeys(base, tab.windows);
    WindowOrder(base, tab.windows, unsaved);
    forall i | 0 <= i < |m| ensures ROW_ID(OM.Values(m)[i]) == OM.Keys(m)[i] {
      assert m[i] in m;
    }
    assert Map(ROW_ID, OM.Values(m)) == OM.Keys(m);
    FilterMap(ROW_ID, kept, (r: Rec) => r.id !in tab.removed && r.id !in disk.tombs, OM.Values(m));
  }
}
