/**
 The cross-tab protocol of src/stores/sshTerminals.js as pure functions: one tab's store,
 the localStorage tables all tabs share, and one function per entry point of the store.
 Every entry point runs in one turn of the event loop, so it is atomic on the shared tables.
 */
module TabProtocol {
  import opened Wrappers
  import opened Seqs
  import OM = OrderedMap
  import JsText
  import ZScale

  const TOMB_TTL := 7 * 24 * 60 * 60 * 1000
  const RECENT_CLOSED_MS := 12 * 60 * 1000

  /** A row of the persisted window table (`title` is the label field of the source). */
  datatype Rec = Rec(id: string, serverId: string, name: string, title: string)

  datatype Status = Open | Minimized | External

  /** A window in a tab's memory. */
  datatype Win = Win(id: string, serverId: string, name: string, title: string, status: Status, z: int)

  /** localStorage: the window table and the tombstone log (id to time of deletion). */
  datatype Disk = Disk(table: seq<Rec>, tombs: map<string, int>)

  /**
   The memory of one tab: its windows, its z counter, the ids it removed itself, the ids it
   closed lately (id to time) and its popup references (id to "is it closed").
   */
  datatype Tab = Tab(windows: seq<Win>, next: int, removed: set<string>, recent: map<string, int>,
    popups: map<string, bool>)

  function Or(a: string, b: string): string { if a != "" then a else b }

  function Meta(w: Win): Rec { Rec(w.id, w.serverId, w.name, w.title) }

  function RecIds(table: seq<Rec>): set<string> { set r | r in table :: r.id }

  function WinIds(ws: seq<Win>): set<string> { set w | w in ws :: w.id }

  /** windows.find(x => x.id === id) */
  function Find(ws: seq<Win>, id: string): (r: Option<nat>)
    ensures r.Some? ==> r.value < |ws| && ws[r.value].id == id
    ensures r.Some? <==> id in WinIds(ws)
  {
    if ws == [] then None
    else if ws[0].id == id then
      assert ws[0] in ws;
      Some(0)
    else
      var r := Find(ws[1..], id);
      assert ws == [ws[0]] + ws[1..];
      if r.Some? then Some(r.value + 1) else None
  }

  // ------------------------------------------------------------ disk reads and writes

  function FromTable(table: seq<Rec>): OM.Entries<string, Rec> {
    if table == [] then []
    else OM.Put(FromTable(table[..|table| - 1]), table[|table| - 1].id, table[|table| - 1])
  }

  function PutWindows(m: OM.Entries<string, Rec>, ws: seq<Win>): OM.Entries<string, Rec> {
    if ws == [] then m
    else OM.Put(PutWindows(m, ws[..|ws| - 1]), ws[|ws| - 1].id, Meta(ws[|ws| - 1]))
  }

  /** persist(): merge the tab's windows into the table on disk, minus removed and tombstoned ids. */
  function Persist(tab: Tab, disk: Disk): Disk {
    var merged := OM.Values(PutWindows(FromTable(disk.table), tab.windows));
    disk.(table := Filter((r: Rec) => r.id !in tab.removed && r.id !in disk.tombs, merged))
  }

  function Loaded(r: Rec): Win {
    Win(r.id, r.serverId, Or(r.name, r.serverId), r.title, Minimized, 0)
  }

  /** loadPersisted() */
  function LoadPersisted(disk: Disk): seq<Win> {
    Map(Loaded, Filter((r: Rec) => r.id != "" && r.serverId != "" && r.id !in disk.tombs, disk.table))
  }

  function ById(ws: seq<Win>): (m: map<string, Win>)
    ensures m.Keys == WinIds(ws)
    ensures forall id :: id in m ==> m[id] in ws && m[id].id == id
  {
    if ws == [] then map[]
    else
      assert ws == ws[..|ws| - 1] + [ws[|ws| - 1]];
      ById(ws[..|ws| - 1])[ws[|ws| - 1].id := ws[|ws| - 1]]
  }

  function Reconcile(loaded: seq<Win>, known: map<string, Win>): (r: seq<Win>)
    ensures |r| == |loaded|
    ensures forall i :: 0 <= i < |r| ==>
      r[i].serverId == loaded[i].serverId && r[i].name == loaded[i].name && r[i].title == loaded[i].title
  {
    if loaded == [] then []
    else
      var l := loaded[0];
      var w := if l.id in known then known[l.id].(serverId := l.serverId, name := l.name, title := l.title) else l;
      [w] + Reconcile(loaded[1..], known - {l.id})
  }

  /** syncFromStorage(): rebuild from disk, keeping status and z of the windows already known. */
  function Sync(tab: Tab, disk: Disk): Tab {
    tab.(windows := Reconcile(LoadPersisted(disk), ById(tab.windows)))
  }

  /** A page load: a new store over the same disk. */
  function Fresh(disk: Disk): Tab {
    Tab(LoadPersisted(disk), ZScale.WINDOW_BASE, {}, map[], map[])
  }

  function Purge(log: map<string, int>, now: int, ttl: int): map<string, int> {
    log - set id | id in log && now - log[id] > ttl
  }

  // ------------------------------------------------------------ z-index of open windows

  function OpenZs(ws: seq<Win>): seq<int> {
    if ws == [] then []
    else OpenZs(ws[..|ws| - 1]) + if ws[|ws| - 1].status.Open? then [ws[|ws| - 1].z] else []
  }

  function WithOpenZs(ws: seq<Win>, zs: seq<int>): (r: seq<Win>)
    requires |zs| == |OpenZs(ws)|
    ensures |r| == |ws|
    ensures forall i :: 0 <= i < |ws| ==> r[i] == ws[i].(z := r[i].z)
  {
    if ws == [] then []
    else
      var w := ws[|ws| - 1];
      if w.status.Open?
      then WithOpenZs(ws[..|ws| - 1], zs[..|zs| - 1]) + [w.(z := zs[|zs| - 1])]
      else WithOpenZs(ws[..|ws| - 1], zs) + [w]
  }

  /** takeZ() on a window list: renumbers the open windows when the band is used up. */
  function TakeZ(ws: seq<Win>, next: int): (r: (seq<Win>, int))
    ensures |r.0| == |ws|
    ensures forall i :: 0 <= i < |ws| ==> r.0[i] == ws[i].(z := r.0[i].z)
  {
    var a := ZScale.Allocate(next, OpenZs(ws));
    (WithOpenZs(ws, a.zs), a.z)
  }

  /** The window at i goes to status s on top of the open ones. */
  function Raise(tab: Tab, i: nat, s: Status): (t: Tab)
    requires i < |tab.windows|
  {
    var ws := tab.windows[i := tab.windows[i].(status := s)];
    var (ws', z) := TakeZ(ws, tab.next);
    tab.(windows := ws'[i := ws'[i].(z := z)], next := z)
  }

  // ------------------------------------------------------------ the entry points

  type Turn = (Tab, Disk)

  function Saved(tab: Tab, disk: Disk): Turn { (tab, Persist(tab, disk)) }

  function AddWindow(tab: Tab, disk: Disk, id: string, serverId: string, name: string): Turn {
    var (ws, z) := TakeZ(tab.windows, tab.next);
    Saved(tab.(windows := ws + [Win(id, serverId, name, "", Open, z)], next := z), disk)
  }

  function SetStatus(tab: Tab, i: nat, s: Status): Tab
    requires i < |tab.windows|
  {
    tab.(windows := tab.windows[i := tab.windows[i].(status := s)])
  }

  function SetTitle(tab: Tab, i: nat, title: string): Tab
    requires i < |tab.windows|
  {
    tab.(windows := tab.windows[i := tab.windows[i].(title := title)])
  }

  predicate PopupAlive(tab: Tab, id: string) { id in tab.popups && !tab.popups[id] }

  function OpenExternal(tab: Tab, disk: Disk, id: string, granted: bool): Turn {
    var i := Find(tab.windows, id);
    if i.None? || PopupAlive(tab, id) then (tab, disk)
    else
      var tab' := SetStatus(tab, i.value, External);
      (tab'.(popups := if granted then tab.popups[id := false] else tab.popups - {id}), Persist(tab', disk))
  }

  function FocusExternal(tab: Tab, disk: Disk, id: string, granted: bool): Turn {
    var i := Find(tab.windows, id);
    if i.None? then (tab, disk)
    else if PopupAlive(tab, id) then
      if tab.windows[i.value].status.External? then (tab, disk) else Saved(SetStatus(tab, i.value, External), disk)
    else if !granted then
      Saved(SetStatus(tab, i.value, Minimized).(popups := tab.popups - {id}), disk)
    else
      var tab' := tab.(popups := tab.popups[id := false]);
      if tab.windows[i.value].status.External? then (tab', disk) else Saved(SetStatus(tab', i.value, External), disk)
  }

  function FocusWindow(tab: Tab, id: string): Tab {
    var i := Find(tab.windows, id);
    if i.None? then tab else Raise(tab, i.value, tab.windows[i.value].status)
  }

  function RestoreWindow(tab: Tab, id: string): Tab {
    var i := Find(tab.windows, id);
    if i.None? then tab else Raise(tab, i.value, Open)
  }

  function MinimizeWindow(tab: Tab, id: string): Tab {
    var i := Find(tab.windows, id);
    if i.None? then tab else SetStatus(tab, i.value, Minimized)
  }

  function RenameWindow(tab: Tab, disk: Disk, id: string, title: string): Turn {
    var i := Find(tab.windows, id);
    if i.None? then (tab, disk)
    else Saved(SetTitle(tab, i.value, JsText.Trim(title)), disk)
  }

  function CloseWindow(tab: Tab, disk: Disk, id: string, now: int): Turn {
    var tab' := tab.(removed := tab.removed + {id}, windows := Filter((w: Win) => w.id != id, tab.windows));
    var disk' := Persist(tab', disk.(tombs := Purge(disk.tombs[id := now], now, TOMB_TTL)));
    (tab'.(recent := Purge(tab.recent[id := now], now, RECENT_CLOSED_MS)), disk')
  }

  function ReattachOrphan(tab: Tab, disk: Disk, id: string, serverId: string, name: string, title: string,
      granted: bool): Turn
  {
    var cleared := disk.(tombs := disk.tombs - {id});
    if id in WinIds(tab.windows) then OpenExternal(tab, cleared, id, granted)
    else
      var tab' := tab.(windows := tab.windows + [Win(id, serverId, Or(name, serverId), title, Minimized, 0)]);
      OpenExternal(tab', Persist(tab', cleared), id, granted)
  }

  /** Where openOrFocus lands when the tab has a window of that server. */
  function FocusServer(tab: Tab, disk: Disk, i: nat, granted: bool): Turn
    requires i < |tab.windows|
  {
    var w := tab.windows[i];
    if w.status.External? then FocusExternal(tab, disk, w.id, granted) else (FocusWindow(tab, w.id), disk)
  }

  /** A live session of this user on the gateway: its id and its label. */
  datatype Session = Session(sid: string, title: string)

  predicate RecentlyClosed(tab: Tab, id: string, now: int) {
    id in tab.recent && tab.recent[id] != 0 && now - tab.recent[id] <= RECENT_CLOSED_MS
  }

  function PushIfMissing(ws: seq<Win>, serverId: string, name: string, s: Session): (r: seq<Win>)
    ensures ws <= r && s.sid in WinIds(r)
    ensures forall w :: w in r ==> w in ws || !w.status.Open?
  {
    if s.sid in WinIds(ws) then ws
    else
      var r := ws + [Win(s.sid, serverId, name, s.title, Minimized, 0)];
      assert r[|ws|].id == s.sid;
      r
  }

  function PushMissing(ws: seq<Win>, serverId: string, name: string, sessions: seq<Session>): seq<Win> {
    if sessions == [] then ws
    else PushIfMissing(PushMissing(ws, serverId, name, sessions[..|sessions| - 1]), serverId, name,
      sessions[|sessions| - 1])
  }

  /** The sessions a tab may adopt: neither tombstoned nor closed here lately. */
  function Adoptable(tab: Tab, disk: Disk, sessions: seq<Session>, now: int): seq<Session> {
    Filter((s: Session) => s.sid !in disk.tombs && !RecentlyClosed(tab, s.sid, now), sessions)
  }

  /** All the sessions get a window; the first one, the most recently active, comes to the front. */
  function Adopted(tab: Tab, serverId: string, name: string, sessions: seq<Session>): Tab
    requires sessions != []
  {
    var ws := PushIfMissing(tab.windows, serverId, name, sessions[0]);
    var tab1 := Raise(tab.(windows := ws), Find(ws, sessions[0].sid).value, Open);
    tab1.(windows := PushMissing(tab1.windows, serverId, name, sessions[1..]))
  }

  /** openOrFocus after the gateway answered: adopt the user's live sessions, else open a new window. */
  function AdoptOrAdd(tab: Tab, disk: Disk, serverId: string, name: string, sessions: seq<Session>, freshId: string,
      now: int): Turn
  {
    var adoptable := Adoptable(tab, disk, sessions, now);
    if adoptable == [] then AddWindow(tab, disk, freshId, serverId, name)
    else Saved(Adopted(tab, serverId, name, adoptable), disk)
  }

  /** The alive beacon of a popup page. */
  function PopupAliveSignal(tab: Tab, disk: Disk, id: string, serverId: string, name: string): Turn {
    var i := Find(tab.windows, id);
    if i.None? then
      if serverId == "" then (tab, disk)
      else Saved(tab.(windows := tab.windows + [Win(id, serverId, Or(name, serverId), "", External, 0)]), disk)
    else if tab.windows[i.value].status.Minimized? then Saved(SetStatus(tab, i.value, External), disk)
    else (tab, disk)
  }

  /** The farewell of a popup page: back to the taskbar, the record stays. */
  function PopupGoneSignal(tab: Tab, id: string): Tab {
    var i := Find(tab.windows, id);
    var tab' := tab.(popups := tab.popups - {id});
    if i.Some? && tab.windows[i.value].status.External? then SetStatus(tab', i.value, Minimized) else tab'
  }

  /** The polling timer finds the popup of id closed. */
  function PollPopup(tab: Tab, id: string): Tab {
    if id in tab.popups && tab.popups[id] then PopupGoneSignal(tab, id) else tab
  }

  /** The user closes the popup page of id (no call of the store). */
  function ClosePopupPage(tab: Tab, id: string): Tab {
    if id in tab.popups then tab.(popups := tab.popups[id := true]) else tab
  }
}
