/**
 Merging a watch stream into a cached list: src/composables/useK8sQuery.js, as fed by
 src/stores/cluster/watch.js. An item is a mapped object: its own fields and, for raw objects, a
 metadata object.
 */
module WatchCache {
  import opened Wrappers
  import opened Seqs

  datatype Item = Item(fields: map<string, string>, meta: Option<map<string, string>>)

  function FieldOf(m: map<string, string>, name: string): Option<string> {
    if name in m then Some(m[name]) else None
  }

  /** item?.name ?? item?.metadata?.name */
  function Lookup(item: Item, name: string): Option<string> {
    var own := FieldOf(item.fields, name);
    if own.Some? || item.meta.None? then own else FieldOf(item.meta.value, name)
  }

  /** The identity key: the uid if it is not empty, else namespace/name. */
  function UidKey(item: Item): string {
    var uid := Lookup(item, "uid").GetOr("");
    if uid != "" then uid else Lookup(item, "namespace").GetOr("") + "/" + Lookup(item, "name").GetOr("")
  }

  /**
   Objects that have uids are told apart by uid; objects without uid by namespace and name, as long
   as namespaces contain no slash, which Kubernetes forbids.
   */
  lemma UidKeyIdentifies(a: Item, b: Item)
    ensures var ua, ub := Lookup(a, "uid").GetOr(""), Lookup(b, "uid").GetOr("");
      var na, nb := Lookup(a, "namespace").GetOr(""), Lookup(b, "namespace").GetOr("");
      && (ua != "" && ub != "" ==> (UidKey(a) == UidKey(b) <==> ua == ub))
      && (ua == "" == ub && '/' !in na && '/' !in nb ==>
            (UidKey(a) == UidKey(b) <==> na == nb && Lookup(a, "name").GetOr("") == Lookup(b, "name").GetOr("")))
      && (ua == "" && ub != "" && '/' !in ub ==> UidKey(a) != UidKey(b))
  {
    var na, nb := Lookup(a, "namespace").GetOr(""), Lookup(b, "namespace").GetOr("");
    var ta, tb := Lookup(a, "name").GetOr(""), Lookup(b, "name").GetOr("");
    if '/' !in na && '/' !in nb && na + "/" + ta == nb + "/" + tb {
      FirstSlash(na, ta, nb, tb);
    }
    assert (na + "/" + ta)[|na|] == '/';
  }

  /** A field of an object, or else of its metadata, or else nothing. */
  function Read(item: Item, name: string): string {
    if name in item.fields then item.fields[name]
    else match item.meta
      case Some(meta) => if name in meta then meta[name] else ""
      case None => ""
  }

  /**
   The identity of an object: its uid, or its metadata's when it has none of its own, unless that is empty;
   then namespace and name, each its own or else its metadata's, with a slash between them.
   */
  lemma UidKeyReads(item: Item)
    ensures UidKey(item) ==
      if Read(item, "uid") != "" then Read(item, "uid") else Read(item, "namespace") + "/" + Read(item, "name")
  {
  }

  lemma FirstSlash(a: string, s: string, b: string, t: string)
    requires '/' !in a && '/' !in b && a + "/" + s == b + "/" + t
    ensures a == b && s == t
  {
    var w := a + "/" + s;
    assert w[|a|] == '/' && w[|b|] == '/';
    assert forall i :: 0 <= i < |a| ==> w[i] == a[i];
    assert forall i :: 0 <= i < |b| ==> w[i] == b[i];
    assert |a| == |b|;
    assert a == w[..|a|] == b;
    assert s == w[|a| + 1..] == t;
  }

  /** { ...a, ...b } */
  function Spread(a: Item, b: Item): Item {
    Item(a.fields + b.fields, if b.meta.Some? then b.meta else a.meta)
  }

  datatype Event = Event(kind: string, item: Option<Item>)

  function FindIndex(key: Item -> string, list: seq<Item>, k: string): (r: Option<nat>)
    ensures r.Some? ==> r.value < |list| && key(list[r.value]) == k
    ensures r.None? ==> forall i :: 0 <= i < |list| ==> key(list[i]) != k
  {
    if list == [] then None
    else if key(list[0]) == k then Some(0)
    else
      var r := FindIndex(key, list[1..], k);
      assert r.None? ==> forall i :: 1 <= i < |list| ==> list[i] == list[1..][i - 1];
      if r.Some? then Some(r.value + 1) else None
  }

  function ApplyWatchEvent(key: Item -> string, list: seq<Item>, e: Event): seq<Item> {
    if e.item.None? then list
    else
      var item := e.item.value;
      var i := FindIndex(key, list, key(item));
      if e.kind == "DELETED" then (if i.None? then list else list[..i.value] + list[i.value + 1..])
      else if i.None? then list + [item]
      else list[i.value := Spread(list[i.value], item)]
  }

  /**
   One event on any list, whatever the shapes and keys in it: a deletion takes out the first object of that
   identity; any other event writes the fields it brings over that object's, whose other fields stay, or
   puts the object last when there is none.
   */
  lemma EventEffect(key: Item -> string, list: seq<Item>, kind: string, item: Item, i: nat)
    requires forall j :: 0 <= j < i && j < |list| ==> key(list[j]) != key(item)
    requires i < |list| ==> key(list[i]) == key(item)
    ensures
      var r := ApplyWatchEvent(key, list, Event(kind, Some(item)));
      && (i >= |list| ==> r == if kind == "DELETED" then list else list + [item])
      && (i < |list| && kind == "DELETED" ==> r == list[..i] + list[i + 1..])
      && (i < |list| && kind != "DELETED" ==>
            && |r| == |list| && (forall j :: 0 <= j < |r| && j != i ==> r[j] == list[j])
            && (forall f :: FieldOf(r[i].fields, f) ==
                  if f in item.fields then Some(item.fields[f]) else FieldOf(list[i].fields, f))
            && r[i].meta == if item.meta.Some? then item.meta else list[i].meta)
    ensures ApplyWatchEvent(key, list, Event(kind, None)) == list
  {
    FirstIndex(key, list, key(item), i);
  }

  lemma {:induction false} FirstIndex(key: Item -> string, list: seq<Item>, k: string, i: nat)
    requires forall j :: 0 <= j < i && j < |list| ==> key(list[j]) != k
    requires i < |list| ==> key(list[i]) == k
    ensures FindIndex(key, list, k) == if i < |list| then Some(i) else None
  {
    if list != [] && i > 0 { FirstIndex(key, list[1..], k, i - 1); }
  }

  function Fold(key: Item -> string, list: seq<Item>, log: seq<Event>): seq<Item> {
    if log == [] then list else ApplyWatchEvent(key, Fold(key, list, log[..|log| - 1]), log[|log| - 1])
  }

  // ------------------------------------------------------------ the map it stands for

  ghost predicate DistinctKeys(key: Item -> string, list: seq<Item>) {
    forall i, j :: 0 <= i < j < |list| ==> key(list[i]) != key(list[j])
  }

  /** The finite map a list stands for. */
  function Abs(key: Item -> string, list: seq<Item>): map<string, Item> {
    if list == [] then map[] else Abs(key, list[..|list| - 1])[key(list[|list| - 1]) := list[|list| - 1]]
  }

  function Apply(key: Item -> string, m: map<string, Item>, e: Event): map<string, Item> {
    if e.item.None? then m
    else if e.kind == "DELETED" then m - {key(e.item.value)}
    else m[key(e.item.value) := e.item.value]
  }

  function ApplyAll(key: Item -> string, m: map<string, Item>, log: seq<Event>): map<string, Item> {
    if log == [] then m else Apply(key, ApplyAll(key, m, log[..|log| - 1]), log[|log| - 1])
  }

  /** Mapped objects of one kind: all carry the same fields, and no metadata. */
  ghost predicate Shaped(item: Item, shape: set<string>) { item.fields.Keys == shape && item.meta.None? }

  ghost predicate ShapedLog(log: seq<Event>, shape: set<string>) {
    forall e :: e in log && e.item.Some? ==> Shaped(e.item.value, shape)
  }

  ghost predicate Cache(key: Item -> string, list: seq<Item>, shape: set<string>) {
    DistinctKeys(key, list) && forall x :: x in list ==> Shaped(x, shape)
  }

  /** m holds exactly the items of the list, under their keys. */
  ghost predicate Holds(key: Item -> string, list: seq<Item>, m: map<string, Item>) {
    && (forall x :: x in list ==> key(x) in m && m[key(x)] == x)
    && (forall k :: k in m ==> m[k] in list && key(m[k]) == k)
  }

  lemma {:induction false} AbsHolds(key: Item -> string, list: seq<Item>)
    requires DistinctKeys(key, list)
    ensures Holds(key, list, Abs(key, list))
  {
    if list != [] {
      var init, last := list[..|list| - 1], list[|list| - 1];
      AbsHolds(key, init);
      assert list == init + [last];
      assert FindIndex(key, init, key(last)).None?;
      Append(key, init, Abs(key, init), last);
    }
  }

  lemma {:induction false} HoldsIsAbs(key: Item -> string, list: seq<Item>, m: map<string, Item>)
    requires DistinctKeys(key, list) && Holds(key, list, m)
    ensures Abs(key, list) == m
  {
    AbsHolds(key, list);
    var a := Abs(key, list);
    forall k ensures k in a <==> k in m {
      if k in a { assert a[k] in list; }
      if k in m { assert m[k] in list; }
    }
  }

  lemma WholeMerge(a: Item, b: Item, shape: set<string>)
    requires Shaped(a, shape) && Shaped(b, shape)
    ensures Spread(a, b) == b
  {
  }

  lemma RemoveAt(key: Item -> string, list: seq<Item>, i: nat, m: map<string, Item>)
    requires DistinctKeys(key, list) && Holds(key, list, m) && i < |list|
    ensures var r := list[..i] + list[i + 1..]; DistinctKeys(key, r) && Holds(key, r, m - {key(list[i])})
  {
    var r := list[..i] + list[i + 1..];
    forall j | 0 <= j < |r| ensures r[j] == list[if j < i then j else j + 1] && key(r[j]) != key(list[i]) {
    }
    forall k | k in m && k != key(list[i]) ensures m[k] in r {
      var j :| 0 <= j < |list| && list[j] == m[k];
      assert r[if j < i then j else j - 1] == m[k];
    }
  }

  lemma ReplaceAt(key: Item -> string, list: seq<Item>, i: nat, m: map<string, Item>, item: Item)
    requires DistinctKeys(key, list) && Holds(key, list, m) && i < |list| && key(item) == key(list[i])
    ensures DistinctKeys(key, list[i := item]) && Holds(key, list[i := item], m[key(item) := item])
  {
    var r := list[i := item];
    assert r[i] == item;
    forall k | k in m && k != key(item) ensures m[k] in r {
      var j :| 0 <= j < |list| && list[j] == m[k];
      assert r[j] == m[k];
    }
    forall x | x in r && x != item ensures x in list && key(x) != key(item) {
      var j :| 0 <= j < |r| && r[j] == x;
      assert j != i && list[j] == x;
    }
  }

  lemma {:induction false} Append(key: Item -> string, list: seq<Item>, m: map<string, Item>, item: Item)
    requires DistinctKeys(key, list) && Holds(key, list, m) && FindIndex(key, list, key(item)).None?
    ensures DistinctKeys(key, list + [item]) && Holds(key, list + [item], m[key(item) := item])
  {
    forall k | k in m ensures k != key(item) {
      assert m[k] in list;
    }
  }

  lemma ApplyHolds(key: Item -> string, list: seq<Item>, m: map<string, Item>, e: Event, shape: set<string>)
    requires Cache(key, list, shape) && Holds(key, list, m) && (e.item.Some? ==> Shaped(e.item.value, shape))
    ensures DistinctKeys(key, ApplyWatchEvent(key, list, e)) &&
      Holds(key, ApplyWatchEvent(key, list, e), Apply(key, m, e))
  {
    if e.item.Some? {
      var item := e.item.value;
      var i := FindIndex(key, list, key(item));
      if i.Some? {
        if e.kind == "DELETED" {
          RemoveAt(key, list, i.value, m);
        } else {
          WholeMerge(list[i.value], item, shape);
          ReplaceAt(key, list, i.value, m, item);
        }
      } else if e.kind == "DELETED" {
        assert forall k :: k in m ==> m[k] in list && key(m[k]) == k;
        assert m - {key(item)} == m;
      } else {
        Append(key, list, m, item);
      }
    }
  }

  lemma ApplyShaped(key: Item -> string, list: seq<Item>, e: Event, shape: set<string>)
    requires Cache(key, list, shape) && (e.item.Some? ==> Shaped(e.item.value, shape))
    ensures forall x :: x in ApplyWatchEvent(key, list, e) ==> Shaped(x, shape)
  {
    if e.item.Some? {
      var i := FindIndex(key, list, key(e.item.value));
      if i.Some? {
        WholeMerge(list[i.value], e.item.value, shape);
        assert forall x :: x in list[i.value := e.item.value] ==> x in list || x == e.item.value;
      }
    }
  }

  /** One event on the list is the update or the delete of the map, and keys stay distinct. */
  lemma {:induction false} ApplyRefines(key: Item -> string, list: seq<Item>, e: Event, shape: set<string>)
    requires Cache(key, list, shape) && (e.item.Some? ==> Shaped(e.item.value, shape))
    ensures Cache(key, ApplyWatchEvent(key, list, e), shape)
    ensures Abs(key, ApplyWatchEvent(key, list, e)) == Apply(key, Abs(key, list), e)
  {
    AbsHolds(key, list);
    ApplyHolds(key, list, Abs(key, list), e, shape);
    ApplyShaped(key, list, e, shape);
    HoldsIsAbs(key, ApplyWatchEvent(key, list, e), Apply(key, Abs(key, list), e));
  }

  /** Folding a whole stream into the list is folding it into the map. */
  lemma {:induction false} FoldRefines(key: Item -> string, list: seq<Item>, log: seq<Event>, shape: set<string>)
    requires Cache(key, list, shape) && ShapedLog(log, shape)
    ensures Cache(key, Fold(key, list, log), shape)
    ensures Abs(key, Fold(key, list, log)) == ApplyAll(key, Abs(key, list), log)
  {
    if log != [] {
      FoldRefines(key, list, log[..|log| - 1], shape);
      ApplyRefines(key, Fold(key, list, log[..|log| - 1]), log[|log| - 1], shape);
    }
  }

  // ------------------------------------------------------------ replay

  predicate Touches(key: Item -> string, e: Event, k: string) { e.item.Some? && key(e.item.value) == k }

  function Entry(m: map<string, Item>, k: string): Option<Item> { if k in m then Some(m[k]) else None }

  /** What an event that touches a key leaves there. */
  function Outcome(e: Event): Option<Item>
    requires e.item.Some?
  {
    if e.kind == "DELETED" then None else e.item
  }

  predicate Untouched(key: Item -> string, log: seq<Event>, k: string) {
    forall i :: 0 <= i < |log| ==> !Touches(key, log[i], k)
  }

  lemma {:induction false} UntouchedKeeps(key: Item -> string, m: map<string, Item>, log: seq<Event>, k: string)
    requires Untouched(key, log, k)
    ensures Entry(ApplyAll(key, m, log), k) == Entry(m, k)
  {
    if log != [] {
      UntouchedKeeps(key, m, log[..|log| - 1], k);
    }
  }

  /** A key holds what the last event that touched it left. */
  lemma {:induction false} LastTouchDecides(key: Item -> string, m: map<string, Item>, log: seq<Event>, j: nat,
      k: string)
    requires j < |log| && Touches(key, log[j], k) && Untouched(key, log[j + 1..], k)
    ensures Entry(ApplyAll(key, m, log), k) == Outcome(log[j])
  {
    if j < |log| - 1 {
      var init := log[..|log| - 1];
      assert log[j + 1..][|log| - j - 2] == log[|log| - 1];
      assert init[j + 1..] == log[j + 1..][..|log| - j - 2];
      LastTouchDecides(key, m, init, j, k);
    }
  }

  lemma {:induction false} FindLastTouch(key: Item -> string, log: seq<Event>, k: string) returns (j: nat)
    requires !Untouched(key, log, k)
    ensures j < |log| && Touches(key, log[j], k) && Untouched(key, log[j + 1..], k)
  {
    var n := |log| - 1;
    if Touches(key, log[n], k) {
      j := n;
    } else {
      var i :| 0 <= i < |log| && Touches(key, log[i], k);
      assert log[..n][i] == log[i];
      j := FindLastTouch(key, log[..n], k);
      assert forall x :: j + 1 <= x < n ==> log[x] == log[..n][j + 1..][x - j - 1];
    }
  }

  lemma {:induction false} ApplyAppend(key: Item -> string, m: map<string, Item>, a: seq<Event>, b: seq<Event>)
    ensures ApplyAll(key, m, a + b) == ApplyAll(key, ApplyAll(key, m, a), b)
  {
    if b == [] {
      assert a + b == a;
    } else {
      assert (a + b)[..|a + b| - 1] == a + b[..|b| - 1];
      ApplyAppend(key, m, a, b[..|b| - 1]);
    }
  }

  /** Re-applying any suffix b of an applied log a + b changes nothing. */
  lemma {:induction false} ReplayIsHarmless(key: Item -> string, list: seq<Item>, a: seq<Event>, b: seq<Event>,
      shape: set<string>)
    requires Cache(key, list, shape) && ShapedLog(a, shape) && ShapedLog(b, shape)
    ensures Abs(key, Fold(key, Fold(key, list, a + b), b)) == Abs(key, Fold(key, list, a + b))
  {
    FoldRefines(key, list, a + b, shape);
    FoldRefines(key, Fold(key, list, a + b), b, shape);
    var m := ApplyAll(key, Abs(key, list), a);
    ApplyAppend(key, Abs(key, list), a, b);
    var once, twice := ApplyAll(key, m, b), ApplyAll(key, ApplyAll(key, m, b), b);
    forall k ensures Entry(once, k) == Entry(twice, k) {
      if Untouched(key, b, k) {
        UntouchedKeeps(key, once, b, k);
      } else {
        var j := FindLastTouch(key, b, k);
        LastTouchDecides(key, m, b, j, k);
        LastTouchDecides(key, once, b, j, k);
      }
    }
    MapsEqual(once, twice);
  }

  lemma MapsEqual(a: map<string, Item>, b: map<string, Item>)
    requires forall k :: Entry(a, k) == Entry(b, k)
    ensures a == b
  {
    forall k ensures k in a <==> k in b {
      assert Entry(a, k) == Entry(b, k);
    }
    forall k | k in a ensures a[k] == b[k] {
      assert Entry(a, k) == Entry(b, k);
    }
  }

  lemma {:induction false} FoldThree(key: Item -> string, list: seq<Item>, a: Event, b: Event, c: Event)
    ensures Fold(key, list, [a, b, c]) == ApplyWatchEvent(key, ApplyWatchEvent(key, ApplyWatchEvent(key, list, a), b),
      c)
  {
    assert [a, b, c][..2] == [a, b] && [a, b][..1] == [a] && [a][..0] == [];
    assert Fold(key, list, []) == list;
    assert Fold(key, list, [a]) == ApplyWatchEvent(key, list, a);
    assert Fold(key, list, [a, b]) == ApplyWatchEvent(key, Fold(key, list, [a]), b);
  }

  lemma {:induction false} FindFirst(key: Item -> string, x: Item, rest: seq<Item>)
    ensures FindIndex(key, [x] + rest, key(x)) == Some(0)
  {
    assert ([x] + rest)[0] == x;
  }

  lemma FindSecond(key: Item -> string, x: Item, y: Item)
    requires key(x) != key(y)
    ensures FindIndex(key, [x], key(y)) == None && FindIndex(key, [], key(y)) == None
  {
    assert [x][1..] == [];
  }

  /** The order of the list may differ after a replay; what it holds does not. */
  lemma ReplayMayReorder(key: Item -> string, x: Item, y: Item)
    requires key(x) != key(y)
    ensures var log := [Event("DELETED", Some(x)), Event("ADDED", Some(x)), Event("ADDED", Some(y))];
      Fold(key, [], log) == [x, y] && Fold(key, [x, y], log) == [y, x]
  {
    var gone, back, also := Event("DELETED", Some(x)), Event("ADDED", Some(x)), Event("ADDED", Some(y));
    FoldThree(key, [], gone, back, also);
    FoldThree(key, [x, y], gone, back, also);
    FindSecond(key, x, y);
    FindSecond(key, y, x);
    FindFirst(key, x, [y]);
    FindFirst(key, y, [x]);
    assert [x] + [y] == [x, y] && [y] + [x] == [y, x];
    assert ApplyWatchEvent(key, [x, y], gone) == [y];
    assert Spread(y, y) == y;
  }

  // ------------------------------------------------------------ reconnecting from an older version

  /**
   A client of the stream: the list, the position in the log it reads next, and the furthest
   position it ever reached. A reconnect resumes at any position not after the current one.
   */
  datatype Client = Client(list: seq<Item>, cursor: nat, reached: nat)

  datatype Move = Deliver | Reconnect(position: nat)

  predicate CanMove(c: Client, v: Move, log: seq<Event>) {
    if v.Deliver? then c.cursor < |log| else v.position <= c.cursor
  }

  function Moved(key: Item -> string, c: Client, v: Move, log: seq<Event>): Client
    requires CanMove(c, v, log)
  {
    match v
    case Deliver =>
      Client(ApplyWatchEvent(key, c.list, log[c.cursor]), c.cursor + 1, if c.cursor + 1 > c.reached then c.cursor + 1
        else c.reached)
    case Reconnect(p) => c.(cursor := p)
  }

  predicate Valid(key: Item -> string, c: Client, moves: seq<Move>, log: seq<Event>)
    decreases |moves|
  {
    moves != [] ==> CanMove(c, moves[0], log) && Valid(key, Moved(key, c, moves[0], log), moves[1..], log)
  }

  function End(key: Item -> string, c: Client, moves: seq<Move>, log: seq<Event>): Client
    requires Valid(key, c, moves, log)
    decreases |moves|
  {
    if moves == [] then c else End(key, Moved(key, c, moves[0], log), moves[1..], log)
  }

  /** Keys that no pending replay event touches already hold their value at the furthest position. */
  ghost predicate Synced(key: Item -> string, c: Client, list0: seq<Item>, log: seq<Event>, shape: set<string>) {
    && c.cursor <= c.reached <= |log|
    && Cache(key, c.list, shape)
    && forall k :: Untouched(key, log[c.cursor..c.reached], k) ==>
      Entry(Abs(key, c.list), k) == Entry(ApplyAll(key, Abs(key, list0), log[..c.reached]), k)
  }

  /** Delivering the next new event at the furthest position. */
  lemma DeliverNew(key: Item -> string, c: Client, list0: seq<Item>, log: seq<Event>, shape: set<string>)
    requires Synced(key, c, list0, log, shape) && ShapedLog(log, shape) && c.cursor == c.reached < |log|
    ensures Synced(key, Moved(key, c, Deliver, log), list0, log, shape)
  {
    ApplyRefines(key, c.list, log[c.cursor], shape);
    assert log[..c.reached + 1][..c.reached] == log[..c.reached];
    forall k ensures Entry(Abs(key, c.list), k) == Entry(ApplyAll(key, Abs(key, list0), log[..c.reached]), k) {
      assert Untouched(key, log[c.cursor..c.reached], k);
    }
    MapsEqual(Abs(key, c.list), ApplyAll(key, Abs(key, list0), log[..c.reached]));
  }

  /** Delivering an event again, behind the furthest position. */
  lemma DeliverAgain(key: Item -> string, c: Client, list0: seq<Item>, log: seq<Event>, shape: set<string>)
    requires Synced(key, c, list0, log, shape) && ShapedLog(log, shape) && c.cursor < c.reached
    ensures Synced(key, Moved(key, c, Deliver, log), list0, log, shape)
  {
    var e, seen, rest := log[c.cursor], log[..c.reached], log[c.cursor + 1..c.reached];
    ApplyRefines(key, c.list, e, shape);
    assert seen[c.cursor] == e && seen[c.cursor + 1..] == rest;
    assert log[c.cursor..c.reached] == [e] + rest;
    forall k | Untouched(key, rest, k)
      ensures Entry(Apply(key, Abs(key, c.list), e), k) == Entry(ApplyAll(key, Abs(key, list0), seen), k)
    {
      if Touches(key, e, k) {
        LastTouchDecides(key, Abs(key, list0), seen, c.cursor, k);
      } else {
        assert Untouched(key, [e] + rest, k);
      }
    }
  }

  lemma ReconnectSynced(key: Item -> string, c: Client, p: nat, list0: seq<Item>, log: seq<Event>, shape: set<string>)
    requires Synced(key, c, list0, log, shape) && p <= c.cursor
    ensures Synced(key, c.(cursor := p), list0, log, shape)
  {
    forall k | Untouched(key, log[p..c.reached], k) ensures Untouched(key, log[c.cursor..c.reached], k) {
      assert forall i :: 0 <= i < c.reached - c.cursor ==>
        log[c.cursor..c.reached][i] == log[p..c.reached][i + c.cursor - p];
    }
  }

  lemma {:induction false} StaysSynced(key: Item -> string, c: Client, moves: seq<Move>, list0: seq<Item>,
      log: seq<Event>, shape: set<string>)
    requires Synced(key, c, list0, log, shape) && ShapedLog(log, shape) && Valid(key, c, moves, log)
    ensures Synced(key, End(key, c, moves, log), list0, log, shape)
    decreases |moves|
  {
    if moves != [] {
      if moves[0].Deliver? {
        if c.cursor == c.reached { DeliverNew(key, c, list0, log, shape); } else {
          DeliverAgain(key, c, list0, log, shape);
        }
      } else {
        ReconnectSynced(key, c, moves[0].position, list0, log, shape);
      }
      StaysSynced(key, Moved(key, c, moves[0], log), moves[1..], list0, log, shape);
    }
  }

  /**
   Whatever deliveries and reconnects happen, each reconnect replaying as much of the log as it
   likes: when the client is back at its furthest position, its list is that prefix of the log.
   */
  lemma {:induction false} CacheAgreesWithLog(key: Item -> string, list0: seq<Item>, moves: seq<Move>, log: seq<Event>,
      shape: set<string>)
    requires forall i, j :: 0 <= i < j < |list0| ==> key(list0[i]) != key(list0[j])
    requires forall x :: x in list0 ==> x.fields.Keys == shape && x.meta.None?
    requires forall e :: e in log && e.item.Some? ==> e.item.value.fields.Keys == shape && e.item.value.meta.None?
    requires Valid(key, Client(list0, 0, 0), moves, log)
    ensures var c := End(key, Client(list0, 0, 0), moves, log);
      c.cursor == c.reached ==>
        && c.reached <= |log| && Cache(key, c.list, shape)
        && Abs(key, c.list) == ApplyAll(key, Abs(key, list0), log[..c.reached])
  {
    var c0 := Client(list0, 0, 0);
    assert log[..0] == [];
    StaysSynced(key, c0, moves, list0, log, shape);
    var c := End(key, c0, moves, log);
    if c.cursor == c.reached {
      forall k ensures Entry(Abs(key, c.list), k) == Entry(ApplyAll(key, Abs(key, list0), log[..c.reached]), k) {
        assert Untouched(key, log[c.cursor..c.reached], k);
      }
      MapsEqual(Abs(key, c.list), ApplyAll(key, Abs(key, list0), log[..c.reached]));
    }
  }

  /** A run of that kind: an event is delivered, the connection starts over, the event comes again. */
  lemma DeliverTwice(key: Item -> string, list0: seq<Item>, log: seq<Event>)
    requires log != []
    ensures
      var moves := [Deliver, Move.Reconnect(0), Deliver];
      var once := ApplyWatchEvent(key, list0, log[0]);
      && Valid(key, Client(list0, 0, 0), moves, log)
      && End(key, Client(list0, 0, 0), moves, log) == Client(ApplyWatchEvent(key, once, log[0]), 1, 1)
  {
    var c0 := Client(list0, 0, 0);
    var c1 := Moved(key, c0, Deliver, log);
    var c2 := Moved(key, c1, Move.Reconnect(0), log);
    var c3 := Moved(key, c2, Deliver, log);
    assert Valid(key, c3, [], log) && End(key, c3, [], log) == c3;
    assert [Deliver][1..] == [];
    assert Valid(key, c2, [Deliver], log) && End(key, c2, [Deliver], log) == c3;
    assert [Move.Reconnect(0), Deliver][1..] == [Deliver];
    assert Valid(key, c1, [Move.Reconnect(0), Deliver], log) && End(key, c1, [Move.Reconnect(0), Deliver], log) == c3;
    assert [Deliver, Move.Reconnect(0), Deliver][1..] == [Move.Reconnect(0), Deliver];
  }
}
