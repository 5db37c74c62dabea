/**
 Pod volumes and mounts against the rows of the storage form: reading a pod into rows
 (src/logic/volumeBackfill.js), writing rows back as mounts (src/logic/subContainer.js) and as
 volumes (src/logic/volumeMountValidation.js, src/views/NsWorkloadDetail.vue).
 */
module Volumes {
  import opened Wrappers
  import opened Seqs
  import opened JsText
  import opened OrderedMap
  import Json

  datatype Item = Item(key: string, path: string)

  /** What a volume is made of; Other is every kind the form has no fields for. */
  datatype Source =
    | PvcSource(claim: Option<string>)
    | HostPathSource(path: Option<string>, pathType: Option<string>)
    | NfsSource(server: Option<string>, dir: Option<string>)
    | ConfigMapSource(cm: Option<string>, items: seq<Item>, mode: Option<int>)
    | SecretSource(secret: Option<string>, items: seq<Item>, mode: Option<int>)
    | EmptyDirSource
    | OtherSource(json: Json.Json)

  datatype Volume = Volume(name: string, source: Source)

  /** subPath "" and readOnly false stand for absent keys as well. */
  datatype Mount = Mount(name: string, mountPath: string, subPath: string, readOnly: bool)

  /** always tells a native sidecar among the init containers. */
  datatype Container = Container(always: bool, mounts: seq<Mount>)

  datatype Pod = Pod(containers: seq<Container>, inits: seq<Container>, volumes: seq<Volume>)

  datatype Kind = Pvc | HostPath | Nfs | ConfigMap | Secret | EmptyDir | Unknown

  /** The part of a row that describes the volume. */
  datatype Detected = Detected(
    kind: Kind, pvcName: string, hostPath: string, hostPathType: string, server: string, nfsPath: string,
    cmName: string, secretName: string, defaultMode: string, items: seq<Item>, raw: Option<Volume>)

  datatype Row = Row(name: string, target: string, mountPath: string, subPath: string, readOnly: bool, volume: Detected)

  // ------------------------------------------------------------ octal modes

  function OctalDigits(n: nat): string {
    if n < 8 then ['0' + n as char] else OctalDigits(n / 8) + ['0' + (n % 8) as char]
  }

  function PadStart(s: string, width: nat): string
    decreases width - |s|
  {
    if |s| >= width then s else PadStart("0" + s, width)
  }

  function OctalOf(m: Option<int>): string {
    if m.None? then ""
    else PadStart(if m.value < 0 then "-" + OctalDigits(-m.value) else OctalDigits(m.value), 4)
  }

  predicate IsOctal(c: char) { '0' <= c <= '7' }

  predicate AllOctal(s: string) { forall i :: 0 <= i < |s| ==> IsOctal(s[i]) }

  function OctalValue(s: string): nat
    requires AllOctal(s)
  {
    if s == "" then 0
    else
      assert IsOctal(s[|s| - 1]);
      OctalValue(s[..|s| - 1]) * 8 + (s[|s| - 1] as int - '0' as int)
  }

  /** /^[0-7]{3,4}$/ read in base 8, and None for anything else. */
  function DefaultModeToInt(s: string): Option<int> {
    if 3 <= |s| <= 4 && AllOctal(s) then Some(OctalValue(s)) else None
  }

  lemma {:induction false} OctalDigitsSpec(n: nat)
    ensures AllOctal(OctalDigits(n)) && OctalValue(OctalDigits(n)) == n && |OctalDigits(n)| >= 1
  {
    var s := OctalDigits(n);
    if n < 8 {
      assert s[..0] == "";
    } else {
      OctalDigitsSpec(n / 8);
      assert s[..|s| - 1] == OctalDigits(n / 8);
      assert forall i :: 0 <= i < |s| - 1 ==> s[i] == OctalDigits(n / 8)[i];
    }
  }

  lemma {:induction false} OctalLength(n: nat)
    ensures |OctalDigits(n)| <= 4 <==> n < 4096
  {
    if n >= 8 {
      OctalDigitsSpec(n / 8);
      if n >= 64 {
        OctalDigitsSpec(n / 8 / 8);
        if n >= 512 {
          OctalDigitsSpec(n / 8 / 8 / 8);
          if n >= 4096 { OctalDigitsSpec(n / 8 / 8 / 8 / 8); }
        }
      }
    }
  }

  lemma {:induction false} PadKeepsValue(s: string)
    requires AllOctal(s)
    ensures AllOctal("0" + s) && OctalValue("0" + s) == OctalValue(s)
  {
    var t := "0" + s;
    assert forall i :: 0 <= i < |t| ==> IsOctal(t[i]);
    if s == "" {
      assert t[..0] == "";
    } else {
      PadKeepsValue(s[..|s| - 1]);
      assert t[..|t| - 1] == "0" + s[..|s| - 1];
    }
  }

  lemma {:induction false} PadStartSpec(s: string, width: nat)
    ensures |PadStart(s, width)| == if |s| >= width then |s| else width
    ensures forall c :: c in s ==> c in PadStart(s, width)
    ensures AllOctal(s) ==> AllOctal(PadStart(s, width)) && OctalValue(PadStart(s, width)) == OctalValue(s)
    decreases width - |s|
  {
    if |s| < width {
      PadStartSpec("0" + s, width);
      if AllOctal(s) { PadKeepsValue(s); }
      assert forall c :: c in s ==> c in "0" + s;
    }
  }

  /** The octal text of a mode reads back as the mode exactly for the modes 0 to 4095 (octal 7777), and for none. */
  lemma OctalRoundTripIff(m: Option<int>)
    ensures DefaultModeToInt(OctalOf(m)) == m <==> m.None? || 0 <= m.value <= 4095
  {
    if m.Some? {
      if m.value < 0 {
        var s := "-" + OctalDigits(-m.value);
        PadStartSpec(s, 4);
        assert s[0] == '-' && '-' in PadStart(s, 4);
      } else {
        OctalDigitsSpec(m.value);
        OctalLength(m.value);
        PadStartSpec(OctalDigits(m.value), 4);
      }
    }
  }

  // ------------------------------------------------------------ reading one volume

  const NO_VOLUME := Detected(EmptyDir, "", "", "", "", "", "", "", "", [], None)

  function Detect(v: Volume): Detected {
    match v.source
    case PvcSource(claim) => NO_VOLUME.(kind := Pvc, pvcName := claim.GetOr(""))
    case HostPathSource(path, pathType) => NO_VOLUME.(kind := HostPath, hostPath := path.GetOr(""),
      hostPathType := pathType.GetOr(""))
    case NfsSource(server, path) => NO_VOLUME.(kind := Nfs, server := server.GetOr(""), nfsPath := path.GetOr(""))
    case ConfigMapSource(cm, items, mode) => NO_VOLUME.(kind := ConfigMap, cmName := cm.GetOr(""), items := items,
      defaultMode := OctalOf(mode))
    case SecretSource(secret, items, mode) => NO_VOLUME.(kind := Secret, secretName := secret.GetOr(""),
      items := items, defaultMode := OctalOf(mode))
    case EmptyDirSource => NO_VOLUME
    case OtherSource(_) => NO_VOLUME.(kind := Unknown, raw := Some(v))
  }

  // ------------------------------------------------------------ writing one row

  function Text(s: string): Option<string> { if s == "" then None else Some(s) }

  predicate FullItem(it: Item) { it.key != "" && it.path != "" }

  function ToVolumeDef(r: Row): Option<Volume> {
    var d := r.volume;
    var items, mode := Filter(FullItem, d.items), DefaultModeToInt(d.defaultMode);
    if r.name == "" then None
    else match d.kind
      case Pvc => if d.pvcName == "" then None else Some(Volume(r.name, PvcSource(Some(d.pvcName))))
      case EmptyDir => Some(Volume(r.name, EmptyDirSource))
      case HostPath => if d.hostPath == "" then None
        else Some(Volume(r.name, HostPathSource(Some(d.hostPath), Text(d.hostPathType))))
      case Nfs =>
        if d.server == "" then None
        else Some(Volume(r.name, NfsSource(Some(d.server), Some(if d.nfsPath == "" then "/" else d.nfsPath))))
      case ConfigMap => if d.cmName == "" then None
        else Some(Volume(r.name, ConfigMapSource(Some(d.cmName), items, mode)))
      case Secret => if d.secretName == "" then None
        else Some(Volume(r.name, SecretSource(Some(d.secretName), items, mode)))
      case Unknown => d.raw
  }

  predicate Filled(s: Option<string>) { s.Some? && s.value != "" }

  predicate GoodMode(m: Option<int>) { m.None? || 0 <= m.value <= 4095 }

  /** The volumes the form gives back as they were: required fields not empty, optional ones absent or not empty. */
  predicate Restorable(s: Source) {
    match s
    case PvcSource(claim) => Filled(claim)
    case HostPathSource(path, pathType) => Filled(path) && pathType != Some("")
    case NfsSource(server, path) => Filled(server) && Filled(path)
    case ConfigMapSource(cm, items, mode) => Filled(cm) && (forall it :: it in items ==> FullItem(it)) && GoodMode(mode)
    case SecretSource(secret, items, mode) => Filled(secret) && (forall it :: it in items ==> FullItem(it)) &&
      GoodMode(mode)
    case EmptyDirSource => true
    case OtherSource(_) => true
  }

  lemma {:induction false} ItemsIff(items: seq<Item>)
    ensures Filter(FullItem, items) == items <==> forall it :: it in items ==> FullItem(it)
  {
    if forall it :: it in items ==> FullItem(it) { FilterAll(FullItem, items); }
  }

  /** The parts a ConfigMap's and a Secret's volume share. */
  lemma ProjectionIff(name: Option<string>, items: seq<Item>, mode: Option<int>)
    ensures name.GetOr("") != "" ==> Some(name.GetOr("")) == name
    ensures Filter(FullItem, items) == items && DefaultModeToInt(OctalOf(mode)) == mode <==>
      (forall it :: it in items ==> FullItem(it)) && GoodMode(mode)
  {
    ItemsIff(items);
    OctalRoundTripIff(mode);
  }

  lemma ReadConfigMap(v: Volume)
    requires v.source.ConfigMapSource?
    ensures var d := Detect(v);
      d.kind.ConfigMap? && d.cmName == v.source.cm.GetOr("") && d.items == v.source.items &&
        d.defaultMode == OctalOf(v.source.mode)
  {
  }

  lemma ReadSecret(v: Volume)
    requires v.source.SecretSource?
    ensures var d := Detect(v);
      d.kind.Secret? && d.secretName == v.source.secret.GetOr("") && d.items == v.source.items &&
        d.defaultMode == OctalOf(v.source.mode)
  {
  }

  lemma ConfigMapRestoredIff(v: Volume, r: Row)
    requires v.name != "" && r.name == v.name && r.volume == Detect(v) && v.source.ConfigMapSource?
    ensures ToVolumeDef(r) == Some(v) <==> Restorable(v.source)
  {
    ReadConfigMap(v);
    var name, items, mode := v.source.cm.GetOr(""), Filter(FullItem, v.source.items),
      DefaultModeToInt(OctalOf(v.source.mode));
    assert ToVolumeDef(r) == if name == "" then None
      else Some(Volume(r.name, ConfigMapSource(Some(name), items, mode)));
    ProjectionIff(v.source.cm, v.source.items, v.source.mode);
  }

  lemma SecretRestoredIff(v: Volume, r: Row)
    requires v.name != "" && r.name == v.name && r.volume == Detect(v) && v.source.SecretSource?
    ensures ToVolumeDef(r) == Some(v) <==> Restorable(v.source)
  {
    ReadSecret(v);
    var name, items, mode := v.source.secret.GetOr(""), Filter(FullItem, v.source.items),
      DefaultModeToInt(OctalOf(v.source.mode));
    assert ToVolumeDef(r) == if name == "" then None else Some(Volume(r.name, SecretSource(Some(name), items, mode)));
    ProjectionIff(v.source.secret, v.source.items, v.source.mode);
  }

  /**
   A volume read into a row and written from it is the same volume exactly when it is restorable; unknown
   kinds always are.
   */
  lemma VolumeRestoredIff(v: Volume, r: Row)
    requires v.name != "" && r.name == v.name && r.volume == Detect(v)
    ensures ToVolumeDef(r) == Some(v) <==> Restorable(v.source)
  {
    if v.source.ConfigMapSource? {
      ConfigMapRestoredIff(v, r);
    } else if v.source.SecretSource? {
      SecretRestoredIff(v, r);
    }
  }

  /** The volume of a row, kind by kind: none without a name or the field the kind needs. */
  lemma RowWritten(r: Row)
    ensures
      var d, items := r.volume, Filter(FullItem, r.volume.items);
      var source := match d.kind
        case Pvc => if d.pvcName == "" then None else Some(PvcSource(Some(d.pvcName)))
        case EmptyDir => Some(EmptyDirSource)
        case HostPath =>
          if d.hostPath == "" then None
          else Some(HostPathSource(Some(d.hostPath), if d.hostPathType == "" then None else Some(d.hostPathType)))
        case Nfs =>
          if d.server == "" then None
          else Some(NfsSource(Some(d.server), Some(if d.nfsPath == "" then "/" else d.nfsPath)))
        case ConfigMap =>
          if d.cmName == "" then None else Some(ConfigMapSource(Some(d.cmName), items, DefaultModeToInt(d.defaultMode)))
        case Secret =>
          if d.secretName == "" then None
          else Some(SecretSource(Some(d.secretName), items, DefaultModeToInt(d.defaultMode)))
        case Unknown => if d.raw.Some? then Some(d.raw.value.source) else None;
      && (ToVolumeDef(r).Some? <==> r.name != "" && source.Some?)
      && (ToVolumeDef(r).Some? ==>
            && ToVolumeDef(r).value.source == source.value
            && (d.kind != Kind.Unknown ==> ToVolumeDef(r).value.name == r.name))
  {
  }

  // ------------------------------------------------------------ reading a pod

  /** A container as the form names it, with its mounts. */
  type Group = (string, seq<Mount>)

  function InitTarget(i: nat): string { "init:" + Decimal(i) }

  function SidecarTarget(i: nat): string { "sidecar:" + Decimal(i) }

  function Labeled(name: nat -> string, from: nat, cs: seq<Container>): seq<Group> {
    seq(|cs|, i requires 0 <= i < |cs| => (name(from + i), cs[i].mounts))
  }

  function MainGroup(pod: Pod): seq<Group> { if pod.containers == [] then [] else [("main", pod.containers[0].mounts)] }

  function PlainSidecars(pod: Pod): seq<Container> { if pod.containers == [] then [] else pod.containers[1..] }

  function PlainInits(pod: Pod): seq<Container> { Filter((c: Container) => !c.always, pod.inits) }

  function NativeSidecars(pod: Pod): seq<Container> { Filter((c: Container) => c.always, pod.inits) }

  /** Every container with its target: the native sidecars are numbered on from the plain ones. */
  function Groups(pod: Pod): seq<Group> {
    MainGroup(pod) + Labeled(InitTarget, 0, PlainInits(pod)) + Labeled(SidecarTarget, 0, PlainSidecars(pod))
    + Labeled(SidecarTarget, |PlainSidecars(pod)|, NativeSidecars(pod))
  }

  /** How many of the first i containers are of that kind. */
  function CountKind(cs: seq<Container>, always: bool, i: nat): nat
    requires i <= |cs|
  {
    if i == 0 then 0 else CountKind(cs, always, i - 1) + if cs[i - 1].always == always then 1 else 0
  }

  lemma {:induction false} KindAt(cs: seq<Container>, always: bool, i: nat, kind: Container -> bool)
    requires i < |cs| && cs[i].always == always && forall c :: kind(c) <==> c.always == always
    ensures CountKind(cs, always, i) < |Filter(kind, cs)| && Filter(kind, cs)[CountKind(cs, always, i)] == cs[i]
  {
    assert cs == cs[..i] + ([cs[i]] + cs[i + 1..]);
    FilterAppend(kind, cs[..i], [cs[i]] + cs[i + 1..]);
    FilterCons(kind, cs[i], cs[i + 1..]);
    CountIs(cs, always, i, kind);
  }

  lemma {:induction false} CountIs(cs: seq<Container>, always: bool, i: nat, kind: Container -> bool)
    requires i <= |cs| && forall c :: kind(c) <==> c.always == always
    ensures |Filter(kind, cs[..i])| == CountKind(cs, always, i)
  {
    if i > 0 {
      CountIs(cs, always, i - 1, kind);
      assert cs[..i] == cs[..i - 1] + [cs[i - 1]];
      FilterAppend(kind, cs[..i - 1], [cs[i - 1]]);
      FilterOne(kind, cs[i - 1]);
    }
  }

  lemma InLabeled(name: nat -> string, from: nat, cs: seq<Container>, i: nat)
    requires i < |cs|
    ensures (name(from + i), cs[i].mounts) in Labeled(name, from, cs)
  {
    assert Labeled(name, from, cs)[i] == (name(from + i), cs[i].mounts);
  }

  lemma {:induction false} KindsMakeAll(cs: seq<Container>)
    ensures |Filter((c: Container) => !c.always, cs)| + |Filter((c: Container) => c.always, cs)| == |cs|
  {
    if cs != [] { KindsMakeAll(cs[1..]); }
  }

  /** The containers that run for the pod's life: the first is main, the others are sidecars in order. */
  lemma ContainerHasTarget(pod: Pod, i: nat)
    requires i < |pod.containers|
    ensures ((if i == 0 then "main" else "sidecar:" + Decimal(i - 1)), pod.containers[i].mounts) in Groups(pod)
    ensures |Groups(pod)| == |pod.containers| + |pod.inits|
  {
    KindsMakeAll(pod.inits);
    if i == 0 {
      assert ("main", pod.containers[0].mounts) in MainGroup(pod);
    } else {
      InLabeled(SidecarTarget, 0, PlainSidecars(pod), i - 1);
    }
  }

  /** Init containers that stop are numbered on their own. */
  lemma InitHasTarget(pod: Pod, i: nat)
    requires i < |pod.inits| && !pod.inits[i].always
    ensures ("init:" + Decimal(CountKind(pod.inits, false, i)), pod.inits[i].mounts) in Groups(pod)
  {
    KindAt(pod.inits, false, i, (c: Container) => !c.always);
    InLabeled(InitTarget, 0, PlainInits(pod), CountKind(pod.inits, false, i));
  }

  /** Those that do not stop are sidecars, numbered on after the others. */
  lemma NativeHasTarget(pod: Pod, i: nat)
    requires i < |pod.inits| && pod.inits[i].always
    ensures
      var others := if pod.containers == [] then 0 else |pod.containers| - 1;
      ("sidecar:" + Decimal(others + CountKind(pod.inits, true, i)), pod.inits[i].mounts) in Groups(pod)
  {
    KindAt(pod.inits, true, i, (c: Container) => c.always);
    InLabeled(SidecarTarget, |PlainSidecars(pod)|, NativeSidecars(pod), CountKind(pod.inits, true, i));
  }

  type Defs = Entries<string, Detected>

  function VolDefs(vs: seq<Volume>): Defs {
    if vs == [] then [] else Put(VolDefs(vs[..|vs| - 1]), vs[|vs| - 1].name, Detect(vs[|vs| - 1]))
  }

  function RowOf(target: string, m: Mount, d: Detected): Row {
    Row(m.name, target, m.mountPath, m.subPath, m.readOnly, d)
  }

  /** The row of a mount; a name no volume has falls back to emptyDir. */
  function RowFor(target: string, m: Mount, defs: Defs): Row { RowOf(target, m, Get(defs, m.name).GetOr(NO_VOLUME)) }

  function MountRows(target: string, ms: seq<Mount>, defs: Defs): seq<Row> {
    seq(|ms|, i requires 0 <= i < |ms| => RowFor(target, ms[i], defs))
  }

  function GroupRows(gs: seq<Group>, defs: Defs): seq<Row> {
    if gs == [] then [] else GroupRows(gs[..|gs| - 1], defs) + MountRows(gs[|gs| - 1].0, gs[|gs| - 1].1, defs)
  }

  function KeyOf(r: Row): string { r.target + "|" + (r.name + "|" + r.mountPath) }

  type Table = Entries<string, Row>

  function Fill(rows: seq<Row>): Table { PutAll(KeyOf, rows) }

  predicate Mentions(m: Table, name: string) { exists e :: e in m && e.1.name == name }

  function Placeholder(name: string, d: Detected): Row { RowOf("main", Mount(name, "", "", false), d) }

  /** Volumes no row mentions get a row of their own, with no mount path. */
  function Place(m: Table, defs: Defs): Table {
    if defs == [] then m
    else
      var before, last := Place(m, defs[..|defs| - 1]), defs[|defs| - 1];
      if Mentions(before, last.0) then before else Put(before, "main|" + last.0 + "|", Placeholder(last.0, last.1))
  }

  function Backfill(pod: Pod): seq<Row> {
    var defs := VolDefs(pod.volumes);
    Values(Place(Fill(GroupRows(Groups(pod), defs)), defs))
  }

  lemma {:induction false} GroupRowsAppend(gs: seq<Group>, g: Group, defs: Defs)
    ensures GroupRows(gs + [g], defs) == GroupRows(gs, defs) + MountRows(g.0, g.1, defs)
  {
    assert (gs + [g])[..|gs|] == gs;
  }

  method PushContainers(byKey: Table, name: nat -> string, from: nat, cs: seq<Container>, defs: Defs,
      ghost done: seq<Group>) returns (out: Table)
    requires byKey == Fill(GroupRows(done, defs))
    ensures out == Fill(GroupRows(done + Labeled(name, from, cs), defs))
  {
    out := byKey;
    ghost var gs := done;
    ghost var all := Labeled(name, from, cs);
    for i := 0 to |cs|
      invariant out == Fill(GroupRows(gs, defs)) && gs == done + all[..i]
    {
      var target, ms := name(from + i), cs[i].mounts;
      assert all[i] == (target, ms);
      out := PutEach(out, KeyOf, MountRows(target, ms, defs), GroupRows(gs, defs));
      GroupRowsAppend(gs, (target, ms), defs);
      TakeNext(done, all, i);
      gs := gs + [(target, ms)];
    }
    assert all[..|cs|] == all;
  }

  method ReadVolumes(vs: seq<Volume>) returns (defs: Defs)
    ensures defs == VolDefs(vs)
  {
    defs := [];
    for i := 0 to |vs|
      invariant defs == VolDefs(vs[..i])
    {
      defs := Put(defs, vs[i].name, Detect(vs[i]));
      assert vs[..i + 1][..i] == vs[..i];
    }
    assert vs[..|vs|] == vs;
  }

  method PushContainerMounts(pod: Pod, defs: Defs) returns (byKey: Table)
    ensures byKey == Fill(GroupRows(Groups(pod), defs))
  {
    byKey := [];
    ghost var main := MainGroup(pod);
    if pod.containers != [] {
      byKey := PutEach(byKey, KeyOf, MountRows("main", pod.containers[0].mounts, defs), []);
      GroupRowsAppend([], ("main", pod.containers[0].mounts), defs);
      assert [] + main == main;
    }
    var plain := PlainSidecars(pod);
    ghost var inits := Labeled(InitTarget, 0, PlainInits(pod));
    byKey := PushContainers(byKey, InitTarget, 0, PlainInits(pod), defs, main);
    byKey := PushContainers(byKey, SidecarTarget, 0, plain, defs, main + inits);
    byKey := PushContainers(byKey, SidecarTarget, |plain|, NativeSidecars(pod), defs,
      main + inits + Labeled(SidecarTarget, 0, plain));
  }

  lemma PlaceNext(m: Table, defs: Defs, i: nat)
    requires i < |defs|
    ensures
      var before, d := Place(m, defs[..i]), defs[i];
      Place(m, defs[..i + 1]) == if Mentions(before, d.0) then before
        else Put(before, "main|" + d.0 + "|", Placeholder(d.0, d.1))
  {
    assert defs[..i + 1][..i] == defs[..i];
  }

  method BackfillVolumes(pod: Pod) returns (rows: seq<Row>)
    ensures rows == Backfill(pod)
  {
    var defs := ReadVolumes(pod.volumes);
    var byKey := PushContainerMounts(pod, defs);
    ghost var filled := byKey;
    for i := 0 to |defs|
      invariant byKey == Place(filled, defs[..i])
    {
      PlaceNext(filled, defs, i);
      if !Mentions(byKey, defs[i].0) {
        byKey := Put(byKey, "main|" + defs[i].0 + "|", Placeholder(defs[i].0, defs[i].1));
      }
    }
    assert defs[..|defs|] == defs;
    rows := Values(byKey);
  }

  // ------------------------------------------------------------ mounts of one target

  function ToMountSpec(r: Row): Option<Mount> {
    if r.name == "" || r.mountPath == "" then None else Some(Mount(r.name, r.mountPath, r.subPath, r.readOnly))
  }

  function MountOf(r: Row): seq<Mount> {
    var m := ToMountSpec(r);
    if m.Some? then [m.value] else []
  }

  function At(target: string): Row -> bool { (r: Row) => r.target == target }

  function OfTarget(rows: seq<Row>, target: string): seq<Row> { Filter(At(target), rows) }

  function MountsOf(rows: seq<Row>, target: string): seq<Mount> { FlatMap(MountOf, OfTarget(rows, target)) }

  method MountsForTarget(rows: seq<Row>, target: string) returns (ms: Option<seq<Mount>>)
    ensures ms == if MountsOf(rows, target) == [] then None else Some(MountsOf(rows, target))
  {
    var out := PushAll(MountOf, OfTarget(rows, target));
    ms := if |out| > 0 then Some(out) else None;
  }

  // ------------------------------------------------------------ keys tell rows apart

  predicate NoBar(s: string) { '|' !in s }

  lemma BarCut(a: string, b: string, c: string, d: string)
    requires NoBar(a) && NoBar(c) && a + "|" + b == c + "|" + d
    ensures a == c && b == d
  {
    var s := a + "|" + b;
    assert s[|a|] == '|' && s[|c|] == '|';
    assert forall i :: 0 <= i < |a| ==> s[i] == a[i] && a[i] != '|';
    assert forall i :: 0 <= i < |c| ==> s[i] == c[i] && c[i] != '|';
    assert a == s[..|a|] && c == s[..|c|];
    assert b == s[|a| + 1..] && d == s[|c| + 1..];
  }

  predicate Plain(r: Row) { NoBar(r.target) && NoBar(r.name) }

  lemma KeyTells(r: Row, q: Row)
    requires Plain(r) && Plain(q)
    ensures KeyOf(r) == KeyOf(q) <==> r.target == q.target && r.name == q.name && r.mountPath == q.mountPath
  {
    if KeyOf(r) == KeyOf(q) {
      BarCut(r.target, r.name + "|" + r.mountPath, q.target, q.name + "|" + q.mountPath);
      BarCut(r.name, r.mountPath, q.name, q.mountPath);
    }
  }

  // ------------------------------------------------------------ the groups of a pod

  /** Numbers after a fixed prefix name things apart. */
  ghost predicate Numbers(name: nat -> string, prefix: string) {
    NoBar(prefix) && forall i: nat :: name(i) == prefix + Decimal(i)
  }

  lemma LabeledTargets(name: nat -> string, prefix: string, from: nat, cs: seq<Container>)
    requires Numbers(name, prefix)
    ensures Distinct(Keys(Labeled(name, from, cs)))
    ensures forall t :: t in Keys(Labeled(name, from, cs)) ==> NoBar(t) && prefix <= t
  {
    var keys := Keys(Labeled(name, from, cs));
    forall i, j | 0 <= i < j < |keys| ensures keys[i] != keys[j] {
      assert name(from + i)[|prefix|..] == Decimal(from + i) && name(from + j)[|prefix|..] == Decimal(from + j);
      if keys[i] == keys[j] { DecimalInjective(from + i, from + j); }
    }
    forall i | 0 <= i < |keys| ensures NoBar(keys[i]) && prefix <= keys[i] {
      assert keys[i] == prefix + Decimal(from + i);
    }
  }

  function Sidecars(pod: Pod): seq<Container> { PlainSidecars(pod) + NativeSidecars(pod) }

  lemma GroupsOf(pod: Pod)
    ensures Keys(Groups(pod)) == Keys(MainGroup(pod)) + Keys(Labeled(InitTarget, 0, PlainInits(pod))) +
      Keys(Labeled(SidecarTarget, 0, Sidecars(pod)))
  {
    var plain := PlainSidecars(pod);
    assert Labeled(SidecarTarget, 0, plain) + Labeled(SidecarTarget, |plain|, NativeSidecars(pod)) ==
      Labeled(SidecarTarget, 0, Sidecars(pod));
  }

  /** No two containers share a target. */
  lemma TargetsDistinct(pod: Pod)
    ensures Distinct(Keys(Groups(pod)))
    ensures forall t :: t in Keys(Groups(pod)) ==> NoBar(t)
  {
    GroupsOf(pod);
    LabeledTargets(InitTarget, "init:", 0, PlainInits(pod));
    LabeledTargets(SidecarTarget, "sidecar:", 0, Sidecars(pod));
    var main, inits, sides := Keys(MainGroup(pod)), Keys(Labeled(InitTarget, 0, PlainInits(pod))),
      Keys(Labeled(SidecarTarget, 0, Sidecars(pod)));
    assert forall t :: t in main ==> t[0] == 'm' && NoBar(t);
    assert forall t :: t in inits ==> t[0] == "init:"[0];
    assert forall t :: t in sides ==> t[0] == "sidecar:"[0];
    DistinctConcat(main, inits);
    DistinctConcat(main + inits, sides);
  }

  predicate GoodName(s: string) { s != "" && NoBar(s) }

  /** Volume names as the API server takes them (DNS labels): not empty, and no bar in them. */
  ghost predicate GoodNames(pod: Pod) {
    && (forall v :: v in pod.volumes ==> GoodName(v.name))
    && (forall c, m :: (c in pod.containers || c in pod.inits) && m in c.mounts ==> GoodName(m.name))
  }

  lemma GroupMounts(pod: Pod)
    ensures forall g :: g in Groups(pod) ==> exists c :: (c in pod.containers || c in pod.inits) && c.mounts == g.1
  {
    forall g | g in Groups(pod) ensures exists c :: (c in pod.containers || c in pod.inits) && c.mounts == g.1 {
      if g in MainGroup(pod) {
        assert pod.containers[0] in pod.containers;
      } else if g in Labeled(InitTarget, 0, PlainInits(pod)) {
        var i :| 0 <= i < |PlainInits(pod)| && Labeled(InitTarget, 0, PlainInits(pod))[i] == g;
        assert PlainInits(pod)[i] in pod.inits;
      } else if g in Labeled(SidecarTarget, 0, PlainSidecars(pod)) {
        var i :| 0 <= i < |PlainSidecars(pod)| && Labeled(SidecarTarget, 0, PlainSidecars(pod))[i] == g;
        assert PlainSidecars(pod)[i] in pod.containers;
      } else {
        var n := |PlainSidecars(pod)|;
        var i :| 0 <= i < |NativeSidecars(pod)| && Labeled(SidecarTarget, n, NativeSidecars(pod))[i] == g;
        assert NativeSidecars(pod)[i] in pod.inits;
      }
    }
  }

  lemma {:induction false} EveryGroupRow(gs: seq<Group>, defs: Defs, p: Row -> bool)
    requires forall g, m :: g in gs && m in g.1 ==> p(RowFor(g.0, m, defs))
    ensures forall r :: r in GroupRows(gs, defs) ==> p(r)
  {
    if gs != [] {
      EveryGroupRow(gs[..|gs| - 1], defs, p);
      var g := gs[|gs| - 1];
      assert forall r :: r in MountRows(g.0, g.1, defs) ==>
        exists i :: 0 <= i < |g.1| && r == RowFor(g.0, g.1[i], defs);
    }
  }

  lemma {:induction false} RowsOfGroup(gs: seq<Group>, g: Group, defs: Defs, t: string)
    ensures OfTarget(GroupRows(gs + [g], defs), t) == OfTarget(GroupRows(gs, defs), t) + if g.0 == t
      then MountRows(t, g.1, defs) else []
  {
    var rows := MountRows(g.0, g.1, defs);
    GroupRowsAppend(gs, g, defs);
    FilterAppend(At(t), GroupRows(gs, defs), rows);
    if g.0 == t { FilterAll(At(t), rows); } else { FilterNone(At(t), rows); }
  }

  lemma {:induction false} NoGroup(gs: seq<Group>, defs: Defs, t: string)
    requires forall g :: g in gs ==> g.0 != t
    ensures OfTarget(GroupRows(gs, defs), t) == []
  {
    if gs != [] {
      NoGroup(gs[..|gs| - 1], defs, t);
      RowsOfGroup(gs[..|gs| - 1], gs[|gs| - 1], defs, t);
      assert gs == gs[..|gs| - 1] + [gs[|gs| - 1]];
    }
  }

  lemma {:induction false} OneGroup(gs: seq<Group>, defs: Defs, i: nat)
    requires i < |gs| && forall j :: 0 <= j < |gs| && j != i ==> gs[j].0 != gs[i].0
    ensures OfTarget(GroupRows(gs, defs), gs[i].0) == MountRows(gs[i].0, gs[i].1, defs)
  {
    var n, t := |gs| - 1, gs[i].0;
    RowsOfGroup(gs[..n], gs[n], defs, t);
    assert gs == gs[..n] + [gs[n]];
    if i == n { NoGroup(gs[..n], defs, t); } else { OneGroup(gs[..n], defs, i); }
  }

  // ------------------------------------------------------------ placeholders add no mount

  ghost predicate Keyed(m: Table) { forall e :: e in m ==> e.0 == KeyOf(e.1) && Plain(e.1) }

  lemma PlaceholderKey(m: Table, name: string, d: Detected)
    requires Keyed(m) && NoBar(name) && !Mentions(m, name)
    ensures "main|" + name + "|" == KeyOf(Placeholder(name, d)) && Plain(Placeholder(name, d))
    ensures "main|" + name + "|" !in Keys(m)
  {
    var k, r := "main|" + name + "|", Placeholder(name, d);
    assert k == "main" + "|" + (name + "|" + "");
    if k in Keys(m) {
      var i :| 0 <= i < |m| && Keys(m)[i] == k;
      assert m[i] in m;
      KeyTells(m[i].1, r);
    }
  }

  lemma {:induction false} PlaceAddsNoMount(m: Table, defs: Defs, t: string)
    requires Keyed(m) && forall d :: d in defs ==> NoBar(d.0)
    ensures Keyed(Place(m, defs)) && MountsOf(Values(Place(m, defs)), t) == MountsOf(Values(m), t)
  {
    if defs != [] {
      var before, last := Place(m, defs[..|defs| - 1]), defs[|defs| - 1];
      PlaceAddsNoMount(m, defs[..|defs| - 1], t);
      if !Mentions(before, last.0) {
        PlaceholderKey(before, last.0, last.1);
        var r := Placeholder(last.0, last.1);
        assert Values(Place(m, defs)) == Values(before) + [r];
        MountlessRow(Values(before), r, t);
      }
    }
  }

  lemma MountlessRow(rows: seq<Row>, r: Row, t: string)
    requires r.mountPath == ""
    ensures MountsOf(rows + [r], t) == MountsOf(rows, t)
  {
    FilterAppend(At(t), rows, [r]);
    FilterOne(At(t), r);
    FlatMapAppend(MountOf, OfTarget(rows, t), OfTarget([r], t));
    assert FlatMap(MountOf, OfTarget([r], t)) == [];
  }

  // ------------------------------------------------------------ mounts come back

  function Spot(m: Mount): (string, string) { (m.name, m.mountPath) }

  lemma KeysDistinctIff(t: string, ms: seq<Mount>, defs: Defs)
    requires NoBar(t) && forall m :: m in ms ==> GoodName(m.name)
    ensures Distinct(Map(KeyOf, MountRows(t, ms, defs))) <==> Distinct(Map(Spot, ms))
  {
    var keys, spots := Map(KeyOf, MountRows(t, ms, defs)), Map(Spot, ms);
    forall i, j | 0 <= i < j < |ms| ensures keys[i] == keys[j] <==> spots[i] == spots[j] {
      KeyTells(RowFor(t, ms[i], defs), RowFor(t, ms[j], defs));
    }
  }

  lemma SpecsIff(t: string, ms: seq<Mount>, defs: Defs)
    requires forall m :: m in ms ==> GoodName(m.name)
    ensures FlatMap(MountOf, MountRows(t, ms, defs)) == ms <==> forall m :: m in ms ==> m.mountPath != ""
  {
    var rows := MountRows(t, ms, defs);
    OneForEach(ToMountSpec, MountOf, rows, ms);
    forall i | 0 <= i < |ms| ensures ToMountSpec(rows[i]) == Some(ms[i]) <==> ms[i].mountPath != "" {
      assert rows[i] == RowFor(t, ms[i], defs);
    }
  }

  /** What one container's mounts come to when its rows alone go through the table. */
  lemma MountsSurviveIff(t: string, ms: seq<Mount>, defs: Defs)
    requires NoBar(t) && forall m :: m in ms ==> GoodName(m.name)
    ensures FlatMap(MountOf, Values(Fill(MountRows(t, ms, defs)))) == ms <==>
      Distinct(Map(Spot, ms)) && forall m :: m in ms ==> m.mountPath != ""
  {
    var rows := MountRows(t, ms, defs);
    var vs := Values(Fill(rows));
    PutAllWholeIff(KeyOf, rows);
    KeysDistinctIff(t, ms, defs);
    SpecsIff(t, ms, defs);
    OneForEach(ToMountSpec, MountOf, vs, ms[..|vs|]);
  }

  /** Rows of one target are filled in apart from the others, for any key that tells targets apart. */
  lemma {:induction false} FilledGroup(key: Row -> string, gs: seq<Group>, defs: Defs, i: nat)
    requires i < |gs| && forall j :: 0 <= j < |gs| && j != i ==> gs[j].0 != gs[i].0
    requires forall a, b :: a in GroupRows(gs, defs) && b in GroupRows(gs, defs) && key(a) == key(b) ==>
      a.target == b.target
    ensures OfTarget(Values(PutAll(key, GroupRows(gs, defs))), gs[i].0) ==
      Values(PutAll(key, MountRows(gs[i].0, gs[i].1, defs)))
  {
    var rows, t := GroupRows(gs, defs), gs[i].0;
    OnlyPutAll(key, At(t), rows);
    ValuesOnly(At(t), PutAll(key, rows));
    OneGroup(gs, defs, i);
  }

  lemma {:induction false} FilledRows(pod: Pod, defs: Defs)
    requires GoodNames(pod)
    ensures Keyed(Fill(GroupRows(Groups(pod), defs)))
    ensures forall a, b ::
      a in GroupRows(Groups(pod), defs) && b in GroupRows(Groups(pod), defs) && KeyOf(a) == KeyOf(b) ==>
        a.target == b.target
  {
    var gs := Groups(pod);
    var rows := GroupRows(gs, defs);
    TargetsDistinct(pod);
    TargetIn(gs);
    GroupMounts(pod);
    EveryGroupRow(gs, defs, Plain);
    forall a, b | a in rows && b in rows && KeyOf(a) == KeyOf(b) ensures a.target == b.target { KeyTells(a, b); }
    PutAllEntries(KeyOf, rows);
  }

  lemma DistinctTargets(pod: Pod, g: Group) returns (i: nat)
    requires g in Groups(pod)
    ensures i < |Groups(pod)| && Groups(pod)[i] == g && NoBar(g.0)
    ensures forall j :: 0 <= j < |Groups(pod)| && j != i ==> Groups(pod)[j].0 != g.0
  {
    var gs := Groups(pod);
    TargetsDistinct(pod);
    TargetIn(gs);
    i :| 0 <= i < |gs| && gs[i] == g;
    forall j | 0 <= j < |gs| && j != i ensures gs[j].0 != g.0 {
      assert Keys(gs)[j] == gs[j].0 && Keys(gs)[i] == g.0;
      assert if j < i then Keys(gs)[j] != Keys(gs)[i] else Keys(gs)[i] != Keys(gs)[j];
    }
  }

  lemma {:induction false} FilledMounts(pod: Pod, defs: Defs, g: Group)
    requires GoodNames(pod) && g in Groups(pod)
    ensures MountsOf(Values(Fill(GroupRows(Groups(pod), defs))), g.0) ==
      FlatMap(MountOf, Values(Fill(MountRows(g.0, g.1, defs))))
  {
    FilledRows(pod, defs);
    var i := DistinctTargets(pod, g);
    FilledGroup(KeyOf, Groups(pod), defs, i);
  }

  lemma BackfilledMounts(pod: Pod, t: string)
    requires GoodNames(pod)
    ensures MountsOf(Backfill(pod), t) == MountsOf(Values(Fill(GroupRows(Groups(pod), VolDefs(pod.volumes)))), t)
  {
    FilledRows(pod, VolDefs(pod.volumes));
    DefsEntries(pod.volumes);
    PlaceAddsNoMount(Fill(GroupRows(Groups(pod), VolDefs(pod.volumes))), VolDefs(pod.volumes), t);
  }

  /**
   Reading a pod into rows and collecting one container's rows gives that container's mounts back,
   in order, exactly when they differ pairwise in (name, mountPath) and no mount path is empty;
   what the other containers mount, and which volumes are declared, does not matter.
   */
  lemma MountsReturnIff(pod: Pod, g: Group)
    requires GoodNames(pod) && g in Groups(pod)
    ensures MountsOf(Backfill(pod), g.0) == g.1 <==>
      Distinct(Map(Spot, g.1)) && forall m :: m in g.1 ==> m.mountPath != ""
  {
    BackfilledMounts(pod, g.0);
    FilledMounts(pod, VolDefs(pod.volumes), g);
    GroupMounts(pod);
    var _ := DistinctTargets(pod, g);
    MountsSurviveIff(g.0, g.1, VolDefs(pod.volumes));
  }

  lemma TargetIn(gs: seq<Group>)
    ensures forall h :: h in gs ==> h.0 in Keys(gs)
  {
    forall h | h in gs ensures h.0 in Keys(gs) {
      var i :| 0 <= i < |gs| && gs[i] == h;
      assert Keys(gs)[i] == h.0;
    }
  }

  lemma {:induction false} DefsEntries(vs: seq<Volume>)
    ensures forall e :: e in VolDefs(vs) ==> exists w :: w in vs && e == (w.name, Detect(w))
    ensures forall w :: w in vs ==> w.name in Keys(VolDefs(vs))
  {
    if vs != [] {
      var before, v := vs[..|vs| - 1], vs[|vs| - 1];
      DefsEntries(before);
      PutEntries(VolDefs(before), v.name, Detect(v));
      KeysOfPut(VolDefs(before), v.name, Detect(v));
      assert v in vs;
    }
  }

  // ------------------------------------------------------------ volumes come back

  /** const volDefs = new Map(), the first row of a name winning. */
  function FirstRows(rows: seq<Row>): Table {
    if rows == [] then []
    else
      var before, r := FirstRows(rows[..|rows| - 1]), rows[|rows| - 1];
      if r.name == "" || r.name in Keys(before) then before else Put(before, r.name, r)
  }

  function VolumeOf(r: Row): seq<Volume> {
    var v := ToVolumeDef(r);
    if v.Some? then [v.value] else []
  }

  function VolumesOf(rows: seq<Row>): seq<Volume> { FlatMap(VolumeOf, Values(FirstRows(rows))) }

  method WriteVolumes(rows: seq<Row>) returns (vols: seq<Volume>)
    ensures vols == VolumesOf(rows)
  {
    var volDefs: Table := [];
    for i := 0 to |rows|
      invariant volDefs == FirstRows(rows[..i])
    {
      if rows[i].name != "" && rows[i].name !in Keys(volDefs) {
        volDefs := Put(volDefs, rows[i].name, rows[i]);
      }
      assert rows[..i + 1][..i] == rows[..i];
    }
    assert rows[..|rows|] == rows;
    vols := PushAll(VolumeOf, Values(volDefs));
  }

  lemma {:induction false} FirstRowsSpec(rows: seq<Row>)
    ensures forall e :: e in FirstRows(rows) ==> e.1 in rows && e.0 == e.1.name
    ensures forall r :: r in rows && r.name != "" ==> r.name in Keys(FirstRows(rows))
    ensures Distinct(Keys(FirstRows(rows)))
  {
    if rows != [] {
      var before, r := rows[..|rows| - 1], rows[|rows| - 1];
      FirstRowsSpec(before);
      PutEntries(FirstRows(before), r.name, r);
      KeysOfPut(FirstRows(before), r.name, r);
      assert r in rows;
    }
  }

  /** Row i is the first of its name. */
  predicate FirstOfName(rows: seq<Row>, i: nat)
    requires i < |rows|
  {
    rows[i].name != "" && forall j :: 0 <= j < i ==> rows[j].name != rows[i].name
  }

  lemma {:induction false} RowOfFirst(rows: seq<Row>, e: (string, Row)) returns (i: nat)
    requires e in FirstRows(rows)
    ensures i < |rows| && FirstOfName(rows, i) && e == (rows[i].name, rows[i])
  {
    var n := |rows| - 1;
    if e in FirstRows(rows[..n]) {
      i := RowOfFirst(rows[..n], e);
    } else {
      i := n;
      NamedBefore(rows[..n], rows[n].name);
    }
  }

  lemma {:induction false} FirstOfRow(rows: seq<Row>, i: nat)
    requires i < |rows| && FirstOfName(rows, i)
    ensures (rows[i].name, rows[i]) in FirstRows(rows)
  {
    var n := |rows| - 1;
    if i < n {
      FirstOfRow(rows[..n], i);
    } else {
      NamedBefore(rows[..n], rows[n].name);
    }
  }

  lemma NamedBefore(before: seq<Row>, name: string)
    requires name != ""
    ensures name in Keys(FirstRows(before)) <==> exists j :: 0 <= j < |before| && before[j].name == name
  {
    FirstRowsSpec(before);
    if name in Keys(FirstRows(before)) {
      var k :| 0 <= k < |FirstRows(before)| && Keys(FirstRows(before))[k] == name;
      var e := FirstRows(before)[k];
      assert e in FirstRows(before) && e.1 in before;
    }
  }

  /** The volumes written are those of the rows that come first with their name. */
  lemma WrittenByFirstRows(rows: seq<Row>, v: Volume)
    ensures v in VolumesOf(rows) <==>
      exists i :: 0 <= i < |rows| && FirstOfName(rows, i) && ToVolumeDef(rows[i]) == Some(v)
  {
    var first := FirstRows(rows);
    InVolumes(Values(first), v);
    if r :| r in Values(first) && ToVolumeDef(r) == Some(v) {
      var k :| 0 <= k < |first| && Values(first)[k] == r;
      assert first[k] in first;
      var i := RowOfFirst(rows, first[k]);
    }
    if i :| 0 <= i < |rows| && FirstOfName(rows, i) && ToVolumeDef(rows[i]) == Some(v) {
      FirstOfRow(rows, i);
      var k :| 0 <= k < |first| && first[k] == (rows[i].name, rows[i]);
      assert Values(first)[k] == rows[i];
    }
  }

  lemma {:induction false} InVolumes(rows: seq<Row>, v: Volume)
    ensures v in FlatMap(VolumeOf, rows) <==> exists r :: r in rows && ToVolumeDef(r) == Some(v)
  {
    if rows != [] {
      InVolumes(rows[1..], v);
      assert rows[0] in rows;
    }
  }

  /** A row as Backfill makes them: it describes the volume of its name, or no volume has that name. */
  ghost predicate Describes(vs: seq<Volume>, r: Row) {
    || (exists w :: w in vs && w.name == r.name && r.volume == Detect(w))
    || (r.volume == NO_VOLUME && forall w :: w in vs ==> w.name != r.name)
  }

  lemma {:induction false} RowForDescribes(vs: seq<Volume>, t: string, m: Mount)
    ensures Describes(vs, RowFor(t, m, VolDefs(vs)))
  {
    DefsEntries(vs);
    var defs := VolDefs(vs);
    var found := Get(defs, m.name);
    if found.Some? { assert (m.name, found.value) in defs; }
  }

  /** Only placeholders are added. */
  lemma {:induction false} PlaceGrows(m: Table, defs: Defs, p: Row -> bool)
    requires forall d :: d in defs ==> p(Placeholder(d.0, d.1))
    requires forall e :: e in m ==> p(e.1)
    ensures forall e :: e in Place(m, defs) ==> p(e.1)
  {
    if defs != [] {
      var before, last := Place(m, defs[..|defs| - 1]), defs[|defs| - 1];
      assert last in defs;
      PlaceGrows(m, defs[..|defs| - 1], p);
      PutEntries(before, "main|" + last.0 + "|", Placeholder(last.0, last.1));
    }
  }

  /** A row that joins under a new key mentions its name and leaves the others mentioned. */
  lemma PlaceOne(before: Table, name: string, d: Detected)
    requires Keyed(before) && NoBar(name) && !Mentions(before, name)
    ensures var e := ("main|" + name + "|", Placeholder(name, d));
      && Put(before, e.0, e.1) == before + [e] && Keyed(before + [e])
      && Mentions(before + [e], name) && forall n :: Mentions(before, n) ==> Mentions(before + [e], n)
  {
    PlaceholderKey(before, name, d);
    MentionsAppend(before, ("main|" + name + "|", Placeholder(name, d)));
  }

  /** In the end every declared name is mentioned. */
  lemma {:induction false} PlaceMentions(m: Table, defs: Defs)
    requires Keyed(m) && forall d :: d in defs ==> NoBar(d.0)
    ensures Keyed(Place(m, defs)) && forall d :: d in defs ==> Mentions(Place(m, defs), d.0)
  {
    if defs != [] {
      var before, last := Place(m, defs[..|defs| - 1]), defs[|defs| - 1];
      PlaceMentions(m, defs[..|defs| - 1]);
      assert last in defs;
      if !Mentions(before, last.0) { PlaceOne(before, last.0, last.1); }
      forall d | d in defs ensures Mentions(Place(m, defs), d.0) { assert d in defs[..|defs| - 1] || d == last; }
    }
  }

  lemma MentionsAppend(m: Table, e: (string, Row))
    ensures Mentions(m + [e], e.1.name) && forall name :: Mentions(m, name) ==> Mentions(m + [e], name)
  {
    assert e in m + [e];
    forall name | Mentions(m, name) ensures Mentions(m + [e], name) {
      var f :| f in m && f.1.name == name;
      assert f in m + [e];
    }
  }

  lemma {:induction false} FilledDescribe(pod: Pod, defs: Defs, p: Row -> bool)
    requires forall t, m :: p(RowFor(t, m, defs))
    ensures forall e :: e in Fill(GroupRows(Groups(pod), defs)) ==> p(e.1)
  {
    EveryGroupRow(Groups(pod), defs, p);
    PutAllEntries(KeyOf, GroupRows(Groups(pod), defs));
  }

  lemma BackfilledDescribe(pod: Pod)
    ensures forall r :: r in Backfill(pod) ==> Describes(pod.volumes, r)
  {
    var vs, defs := pod.volumes, VolDefs(pod.volumes);
    var filled, describes := Fill(GroupRows(Groups(pod), defs)), (r: Row) => Describes(vs, r);
    DefsEntries(vs);
    forall t, m ensures describes(RowFor(t, m, defs)) { RowForDescribes(vs, t, m); }
    FilledDescribe(pod, defs, describes);
    PlaceGrows(filled, defs, describes);
    forall r | r in Backfill(pod) ensures Describes(vs, r) { InValues(Place(filled, defs), r); }
  }

  lemma BackfilledMention(pod: Pod, v: Volume) returns (r: Row)
    requires GoodNames(pod) && v in pod.volumes
    ensures r in Backfill(pod) && r.name == v.name
  {
    var defs := VolDefs(pod.volumes);
    var filled := Fill(GroupRows(Groups(pod), defs));
    FilledRows(pod, defs);
    DefsEntries(pod.volumes);
    PlaceMentions(filled, defs);
    var d := EntryWithKey(defs, v.name);
    var e :| e in Place(filled, defs) && e.1.name == v.name;
    InValues(Place(filled, defs), e.1);
    r := e.1;
  }

  lemma BackfillRows(pod: Pod)
    requires GoodNames(pod)
    ensures forall r :: r in Backfill(pod) ==> Describes(pod.volumes, r)
    ensures forall v :: v in pod.volumes ==> exists r :: r in Backfill(pod) && r.name == v.name
  {
    BackfilledDescribe(pod);
    forall v | v in pod.volumes ensures exists r :: r in Backfill(pod) && r.name == v.name {
      var r := BackfilledMention(pod, v);
    }
  }

  lemma WrittenName(vs: seq<Volume>, r: Row)
    requires Describes(vs, r) && ToVolumeDef(r).Some?
    ensures ToVolumeDef(r).value.name == r.name
    ensures (forall w :: w in vs ==> w.name != r.name) ==> ToVolumeDef(r).value.source == EmptyDirSource
  {
  }

  function NameOf(v: Volume): string { v.name }

  lemma RowsOfVolume(pod: Pod, v: Volume, r: Row)
    requires Distinct(Map(NameOf, pod.volumes)) && v in pod.volumes
    requires Describes(pod.volumes, r) && r.name == v.name
    ensures r.volume == Detect(v)
  {
    var names := Map(NameOf, pod.volumes);
    var w :| w in pod.volumes && w.name == r.name && r.volume == Detect(w);
    var i :| 0 <= i < |pod.volumes| && pod.volumes[i] == v;
    var j :| 0 <= j < |pod.volumes| && pod.volumes[j] == w;
    assert names[i] == v.name && names[j] == w.name;
    assert !(i < j) && !(j < i);
  }

  /** What the form writes for a pod it has read: each volume's row, or nothing of that name. */
  lemma WrittenFromRow(pod: Pod, v: Volume)
    requires GoodNames(pod)
    ensures v in VolumesOf(Backfill(pod)) <==> exists e :: e in FirstRows(Backfill(pod)) && ToVolumeDef(e.1) == Some(v)
  {
    var first := FirstRows(Backfill(pod));
    InVolumes(Values(first), v);
    if r :| r in Values(first) && ToVolumeDef(r) == Some(v) { InValues(first, r); }
    if e :| e in first && ToVolumeDef(e.1) == Some(v) { InValues(first, e.1); }
  }

  /** Every volume has a row of its name among the first rows, and that row describes it. */
  lemma OwnRow(pod: Pod, v: Volume) returns (e: (string, Row))
    requires GoodNames(pod) && Distinct(Map(NameOf, pod.volumes)) && v in pod.volumes
    ensures e in FirstRows(Backfill(pod)) && e.1.name == v.name && e.1.volume == Detect(v)
  {
    BackfillRows(pod);
    FirstRowsSpec(Backfill(pod));
    e := EntryWithKey(FirstRows(Backfill(pod)), v.name);
    RowsOfVolume(pod, v, e.1);
  }

  lemma RowOfWritten(pod: Pod, v: Volume, r: Row)
    requires GoodNames(pod) && Distinct(Map(NameOf, pod.volumes)) && v in pod.volumes
    requires ToVolumeDef(r) == Some(v) && exists e :: e in FirstRows(Backfill(pod)) && e.1 == r
    ensures r.name == v.name && r.volume == Detect(v)
  {
    BackfillRows(pod);
    FirstRowsSpec(Backfill(pod));
    WrittenName(pod.volumes, r);
    RowsOfVolume(pod, v, r);
  }

  /**
   A volume of the pod is among the volumes written back exactly when it is restorable; a volume
   that is not restorable comes back under its name in another form or is dropped.
   */
  lemma VolumesReturnIff(pod: Pod, v: Volume)
    requires GoodNames(pod) && Distinct(Map(NameOf, pod.volumes)) && v in pod.volumes
    ensures v in VolumesOf(Backfill(pod)) <==> Restorable(v.source)
  {
    WrittenFromRow(pod, v);
    var own := OwnRow(pod, v);
    VolumeRestoredIff(v, own.1);
    if e :| e in FirstRows(Backfill(pod)) && ToVolumeDef(e.1) == Some(v) {
      RowOfWritten(pod, v, e.1);
      VolumeRestoredIff(v, e.1);
    }
  }

  /** Nothing else is written: a volume under a name the pod does not declare is the emptyDir of a dangling mount. */
  lemma NothingElseIsWritten(pod: Pod, v: Volume)
    requires GoodNames(pod) && v in VolumesOf(Backfill(pod))
    ensures (exists w :: w in pod.volumes && w.name == v.name) || v.source == EmptyDirSource
  {
    BackfillRows(pod);
    FirstRowsSpec(Backfill(pod));
    WrittenFromRow(pod, v);
    var e :| e in FirstRows(Backfill(pod)) && ToVolumeDef(e.1) == Some(v);
    WrittenName(pod.volumes, e.1);
  }

  lemma FirstRowWrites(pod: Pod, e: (string, Row))
    requires GoodNames(pod) && e in FirstRows(Backfill(pod))
    ensures |VolumeOf(e.1)| <= 1 && forall v :: v in VolumeOf(e.1) ==> NameOf(v) == e.0
  {
    BackfilledDescribe(pod);
    FirstRowsSpec(Backfill(pod));
    if ToVolumeDef(e.1).Some? { WrittenName(pod.volumes, e.1); }
  }

  /** No name is written twice, whatever the pod. */
  lemma NamesWrittenOnce(pod: Pod)
    requires GoodNames(pod)
    ensures Distinct(Map(NameOf, VolumesOf(Backfill(pod))))
  {
    var first := FirstRows(Backfill(pod));
    forall e | e in first ensures |VolumeOf(e.1)| <= 1 && forall v :: v in VolumeOf(e.1) ==> NameOf(v) == e.0 {
      FirstRowWrites(pod, e);
    }
    FirstRowsSpec(Backfill(pod));
    DistinctFlatMap(VolumeOf, NameOf, first);
  }
}
