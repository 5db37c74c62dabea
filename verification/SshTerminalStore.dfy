/**
 The store of src/stores/sshTerminals.js as the object it is: fields changed step by step, and
 a localStorage object shared by the stores of all tabs. Each method is proved to make exactly
 the step that TabProtocol gives for it, on which the run theorems are stated.
 */
module SshTerminalStore {
  import opened Wrappers
  import opened Seqs
  import opened TabProtocol
  import OM = OrderedMap
  import JsText
  import ZScale

  class LocalStorage {
    var table: seq<Rec>
    var tombstones: map<string, int>

    function Contents(): Disk
      reads this
    {
      Disk(table, tombstones)
    }

    method RecordTombstone(id: string, now: int)
      modifies this`tombstones
      ensures tombstones == Purge(old(tombstones)[id := now], now, TOMB_TTL)
    {
      tombstones := tombstones[id := now];
      tombstones := tombstones - set k | k in tombstones && now - tombstones[k] > TOMB_TTL;
    }

    method ClearTombstone(id: string)
      modifies this`tombstones
      ensures tombstones == old(tombstones) - {id}
    {
      if id in tombstones {
        tombstones := tombstones - {id};
      }
    }
  }

  class Store {
    var windows: seq<Win>
    var locallyRemoved: set<string>
    var recentlyClosed: map<string, int>
    var popupWins: map<string, bool>
    const zAlloc: ZScale.WindowZAllocator
    const storage: LocalStorage

    function Memory(): Tab
      reads this, zAlloc
    {
      Tab(windows, zAlloc.next, locallyRemoved, recentlyClosed, popupWins)
    }

    constructor (storage: LocalStorage)
      ensures this.storage == storage && fresh(zAlloc)
      ensures Memory() == Fresh(storage.Contents())
    {
      this.storage := storage;
      windows := LoadPersisted(storage.Contents());
      zAlloc := new ZScale.WindowZAllocator();
      locallyRemoved, recentlyClosed, popupWins := {}, map[], map[];
    }

    method PersistWindows()
      modifies storage`table
      ensures storage.Contents() == Persist(Memory(), old(storage.Contents()))
    {
      var byId: OM.Entries<string, Rec> := [];
      var base := storage.table;
      var i := 0;
      while i < |base|
        invariant i <= |base|
        invariant byId == FromTable(base[..i])
      {
        assert base[..i + 1][..i] == base[..i];
        byId := OM.Put(byId, base[i].id, base[i]);
        i := i + 1;
      }
      assert base[..i] == base;
      i := 0;
      while i < |windows|
        invariant i <= |windows|
        invariant byId == PutWindows(FromTable(base), windows[..i])
      {
        assert windows[..i + 1][..i] == windows[..i];
        byId := OM.Put(byId, windows[i].id, Meta(windows[i]));
        i := i + 1;
      }
      assert windows[..i] == windows;
      var removed, tombs := locallyRemoved, storage.tombstones;
      storage.table := Filter((r: Rec) => r.id !in removed && r.id !in tombs, OM.Values(byId));
    }

    method SyncFromStorage()
      modifies this`windows
      ensures Memory() == Sync(old(Memory()), storage.Contents())
    {
      windows := ReconcileLoop(LoadPersisted(storage.Contents()), ById(windows));
    }

    static method ReconcileLoop(loaded: seq<Win>, known: map<string, Win>) returns (out: seq<Win>)
      ensures out == Reconcile(loaded, known)
    {
      var byId := known;
      out := [];
      for i := 0 to |loaded|
        invariant out + Reconcile(loaded[i..], byId) == Reconcile(loaded, known)
      {
        var r := loaded[i];
        assert loaded[i..][0] == r && loaded[i..][1..] == loaded[i + 1..];
        var w := if r.id in byId then byId[r.id].(serverId := r.serverId, name := r.name, title := r.title) else r;
        byId := byId - {r.id};
        ReconcileStep(out, w, Reconcile(loaded[i + 1..], byId));
        out := out + [w];
      }
    }

    static lemma ReconcileStep(out: seq<Win>, w: Win, rest: seq<Win>)
      ensures out + ([w] + rest) == (out + [w]) + rest
    {
    }

    method NextWindowZ() returns (z: int)
      modifies this`windows, zAlloc
      ensures (windows, z) == TakeZ(old(windows), old(zAlloc.next))
      ensures zAlloc.next == z
    {
      var zs := OpenZs(windows);
      var zIndex := new int[|zs|](i requires 0 <= i < |zs| => zs[i]);
      assert zIndex[..] == zs;
      z := zAlloc.NextZ(zIndex);
      windows := WithOpenZs(windows, zIndex[..]);
    }

    method RaiseAt(i: nat, s: Status)
      requires i < |windows|
      modifies this`windows, zAlloc
      ensures Memory() == Raise(old(Memory()), i, s)
    {
      windows := windows[i := windows[i].(status := s)];
      var z := NextWindowZ();
      windows := windows[i := windows[i].(z := z)];
    }

    method SetStatusAt(i: nat, s: Status)
      requires i < |windows|
      modifies this`windows
      ensures Memory() == SetStatus(old(Memory()), i, s)
    {
      windows := windows[i := windows[i].(status := s)];
    }

    method SetTitleAt(i: nat, title: string)
      requires i < |windows|
      modifies this`windows
      ensures Memory() == SetTitle(old(Memory()), i, title)
    {
      windows := windows[i := windows[i].(title := title)];
    }

    method Add(id: string, serverId: string, name: string)
      modifies this`windows, zAlloc, storage`table
      ensures (Memory(), storage.Contents()) == AddWindow(old(Memory()), old(storage.Contents()), id, serverId, name)
    {
      var z := NextWindowZ();
      windows := windows + [Win(id, serverId, name, "", Open, z)];
      PersistWindows();
    }

    method Close(id: string, now: int)
      modifies this, storage
      ensures (Memory(), storage.Contents()) == CloseWindow(old(Memory()), old(storage.Contents()), id, now)
    {
      locallyRemoved := locallyRemoved + {id};
      storage.RecordTombstone(id, now);
      windows := Filter((w: Win) => w.id != id, windows);
      PersistWindows();
      recentlyClosed := recentlyClosed[id := now];
      recentlyClosed := recentlyClosed - set k | k in recentlyClosed && now - recentlyClosed[k] > RECENT_CLOSED_MS;
    }

    method OpenInPopup(id: string, granted: bool)
      modifies this`windows, this`popupWins, storage`table
      ensures (Memory(), storage.Contents()) == OpenExternal(old(Memory()), old(storage.Contents()), id, granted)
    {
      var i := Find(windows, id);
      if i.None? { return; }
      if id in popupWins && !popupWins[id] { return; }
      popupWins := popupWins - {id};
      ghost var popups := popupWins;
      SetStatusAt(i.value, External);
      PersistWindows();
      if granted {
        popupWins := popupWins[id := false];
        assert popupWins == old(popupWins)[id := false];
      }
    }

    method FocusPopup(id: string, granted: bool)
      modifies this`windows, this`popupWins, storage`table
      ensures (Memory(), storage.Contents()) == FocusExternal(old(Memory()), old(storage.Contents()), id, granted)
    {
      var i := Find(windows, id);
      if i.None? { return; }
      if id in popupWins && !popupWins[id] {
        if !windows[i.value].status.External? {
          SetStatusAt(i.value, External);
          PersistWindows();
        }
        return;
      }
      popupWins := popupWins - {id};
      if !granted {
        SetStatusAt(i.value, Minimized);
        PersistWindows();
        return;
      }
      popupWins := popupWins[id := false];
      assert popupWins == old(popupWins)[id := false];
      if !windows[i.value].status.External? {
        SetStatusAt(i.value, External);
        PersistWindows();
      }
    }

    method Reattach(id: string, serverId: string, name: string, title: string, granted: bool)
      modifies this`windows, this`popupWins, storage
      ensures (Memory(), storage.Contents()) ==
        ReattachOrphan(old(Memory()), old(storage.Contents()), id, serverId, name, title, granted)
    {
      storage.ClearTombstone(id);
      var i := Find(windows, id);
      if i.None? {
        windows := windows + [Win(id, serverId, Or(name, serverId), title, Minimized, 0)];
        PersistWindows();
      }
      OpenInPopup(id, granted);
    }

    method PushSession(serverId: string, name: string, s: Session)
      modifies this`windows
      ensures windows == PushIfMissing(old(windows), serverId, name, s)
    {
      if Find(windows, s.sid).None? {
        windows := windows + [Win(s.sid, serverId, name, s.title, Minimized, 0)];
      }
    }

    static lemma AdoptedNext(tab: Tab, serverId: string, name: string, sessions: seq<Session>, k: nat)
      requires 0 < k < |sessions|
      ensures Adopted(tab, serverId, name, sessions[..k + 1]) ==
        var before := Adopted(tab, serverId, name, sessions[..k]);
        before.(windows := PushIfMissing(before.windows, serverId, name, sessions[k]))
    {
      TailNext(sessions, k);
      var done := sessions[..k][1..];
      assert (done + [sessions[k]])[..|done|] == done;
      assert sessions[..k + 1][0] == sessions[..k][0];
    }

    /** A window for every session, the first one in front. */
    method AdoptSessions(serverId: string, name: string, adoptable: seq<Session>)
      requires adoptable != []
      modifies this`windows, zAlloc
      ensures Memory() == Adopted(old(Memory()), serverId, name, adoptable)
    {
      var k := 0;
      while k < |adoptable|
        invariant k <= |adoptable|
        invariant k == 0 ==> Memory() == old(Memory())
        invariant k > 0 ==> Memory() == Adopted(old(Memory()), serverId, name, adoptable[..k])
      {
        PushSession(serverId, name, adoptable[k]);
        if k == 0 {
          var i := Find(windows, adoptable[k].sid);
          RaiseAt(i.value, Open);
          assert adoptable[..1][1..] == [];
        } else {
          AdoptedNext(old(Memory()), serverId, name, adoptable, k);
        }
        k := k + 1;
      }
      assert adoptable[..k] == adoptable;
    }

    /** openOrFocus once the gateway's answer is in and the tab still has no window of the server. */
    method Adopt(serverId: string, name: string, sessions: seq<Session>, freshId: string, now: int)
      modifies this`windows, zAlloc, storage`table
      ensures (Memory(), storage.Contents()) ==
        AdoptOrAdd(old(Memory()), old(storage.Contents()), serverId, name, sessions, freshId, now)
    {
      var adoptable := Adoptable(Memory(), storage.Contents(), sessions, now);
      if adoptable == [] {
        Add(freshId, serverId, name);
        return;
      }
      AdoptSessions(serverId, name, adoptable);
      PersistWindows();
    }

    /** openOrFocus when the tab already has a window of the server, at index i. */
    method FocusServerWindow(i: nat, granted: bool)
      requires i < |windows|
      modifies this`windows, this`popupWins, zAlloc, storage`table
      ensures (Memory(), storage.Contents()) == FocusServer(old(Memory()), old(storage.Contents()), i, granted)
    {
      if windows[i].status.External? {
        FocusPopup(windows[i].id, granted);
      } else {
        FocusById(windows[i].id);
      }
    }

    /** onPopupSignal for the alive beacon. */
    method OnPopupAlive(id: string, serverId: string, name: string)
      modifies this`windows, storage`table
      ensures (Memory(), storage.Contents()) ==
        PopupAliveSignal(old(Memory()), old(storage.Contents()), id, serverId, name)
    {
      var i := Find(windows, id);
      if i.None? && serverId != "" {
        windows := windows + [Win(id, serverId, Or(name, serverId), "", External, 0)];
        PersistWindows();
        return;
      }
      if i.Some? && windows[i.value].status.Minimized? {
        SetStatusAt(i.value, External);
        PersistWindows();
      }
    }

    /** onPopupSignal for the farewell of a popup page. */
    method OnPopupGone(id: string)
      modifies this`windows, this`popupWins
      ensures Memory() == PopupGoneSignal(old(Memory()), id)
    {
      popupWins := popupWins - {id};
      var i := Find(windows, id);
      if i.Some? && windows[i.value].status.External? {
        SetStatusAt(i.value, Minimized);
      }
    }

    /** One entry of the polling timer's loop over the popup references. */
    method PollOne(id: string)
      modifies this`windows, this`popupWins
      ensures Memory() == PollPopup(old(Memory()), id)
    {
      if id in popupWins && popupWins[id] {
        OnPopupGone(id);
      }
    }

    method MinimizeById(id: string)
      modifies this`windows
      ensures Memory() == MinimizeWindow(old(Memory()), id)
    {
      var i := Find(windows, id);
      if i.Some? { SetStatusAt(i.value, Minimized); }
    }

    method RenameById(id: string, title: string)
      modifies this`windows, storage`table
      ensures (Memory(), storage.Contents()) == RenameWindow(old(Memory()), old(storage.Contents()), id, title)
    {
      var i := Find(windows, id);
      if i.None? { return; }
      SetTitleAt(i.value, JsText.Trim(title));
      PersistWindows();
    }

    method RestoreById(id: string)
      modifies this`windows, zAlloc
      ensures Memory() == RestoreWindow(old(Memory()), id)
    {
      var i := Find(windows, id);
      if i.Some? { RaiseAt(i.value, Open); }
    }

    method FocusById(id: string)
      modifies this`windows, zAlloc
      ensures Memory() == FocusWindow(old(Memory()), id)
    {
      var i := Find(windows, id);
      if i.Some? { RaiseAt(i.value, windows[i.value].status); }
    }
  }
}
