/**
 The edit form of a workload as it opens: the rows read from its pod (src/logic/volumeBackfill.js) under
 the storage gate (src/logic/volumeMountValidation.js), before the user has changed anything.
 */
module OpenedPod {
  import opened Wrappers
  import opened Seqs
  import opened OrderedMap
  import opened Volumes
  import opened MountGate

  /** The rows of the mounts, one for each container, volume name and path. */
  function MountedRows(pod: Pod): seq<Row> { Values(Fill(GroupRows(Groups(pod), VolDefs(pod.volumes)))) }

  predicate Mounts(g: Group, m: Mount) { m in g.1 }

  /** The row is at the place of the mount m of container g. */
  predicate At(r: Row, g: Group, m: Mount) { r.target == g.0 && r.name == m.name && r.mountPath == m.mountPath }

  ghost predicate FromMount(pod: Pod, r: Row) { exists g, m :: g in Groups(pod) && Mounts(g, m) && At(r, g, m) }

  ghost predicate Mentioned(pod: Pod, name: string) {
    exists g, m :: g in Groups(pod) && Mounts(g, m) && m.name == name
  }

  // ------------------------------------------------------------ what opening the form demands of the pod

  /** Every declared volume is mounted by some container. */
  ghost predicate AllMounted(pod: Pod) { forall v :: v in pod.volumes ==> Mentioned(pod, v.name) }

  /** Container g mounts at m the volume that container h mounts at n. */
  predicate Shares(pod: Pod, g: Group, h: Group, m: Mount, n: Mount) {
    g in Groups(pod) && h in Groups(pod) && Mounts(g, m) && Mounts(h, n) && m.name == n.name
  }

  /** No volume is mounted at two places, be it in two containers or at two paths of one. */
  ghost predicate OnePlace(pod: Pod) {
    forall g, h, m, n :: Shares(pod, g, h, m, n) ==> g.0 == h.0 && m.mountPath == n.mountPath
  }

  /** Container g has two mounts at one path. */
  predicate SamePath(pod: Pod, g: Group, m: Mount, n: Mount) {
    g in Groups(pod) && Mounts(g, m) && Mounts(g, n) && Normalize(m.mountPath) == Normalize(n.mountPath)
  }

  /** No two volumes are mounted at one path of one container. */
  ghost predicate OwnPaths(pod: Pod) { forall g, m, n :: SamePath(pod, g, m, n) ==> m.name == n.name }

  // ------------------------------------------------------------ rows and mounts

  lemma NamesOfGroup(pod: Pod, g: Group, m: Mount)
    requires GoodNames(pod) && g in Groups(pod) && Mounts(g, m)
    ensures GoodName(m.name) && NoBar(g.0)
  {
    GroupMounts(pod);
    var c :| (c in pod.containers || c in pod.inits) && c.mounts == g.1;
    assert m in c.mounts;
    var _ := DistinctTargets(pod, g);
  }

  lemma {:induction false} MountRowIn(gs: seq<Group>, defs: Defs, g: Group, m: Mount)
    requires g in gs && Mounts(g, m)
    ensures RowFor(g.0, m, defs) in GroupRows(gs, defs)
  {
    var n := |gs| - 1;
    if gs[n] == g {
      var i :| 0 <= i < |g.1| && g.1[i] == m;
      assert MountRows(g.0, g.1, defs)[i] == RowFor(g.0, m, defs);
    } else {
      assert g in gs[..n];
      MountRowIn(gs[..n], defs, g, m);
    }
  }

  /** Every row comes from a mount. */
  lemma RowHasMount(pod: Pod)
    ensures forall r :: r in MountedRows(pod) ==> FromMount(pod, r)
  {
    var gs, defs := Groups(pod), VolDefs(pod.volumes);
    var p := (r: Row) => FromMount(pod, r);
    forall g, m | g in gs && m in g.1 ensures p(RowFor(g.0, m, defs)) {
      assert Mounts(g, m) && At(RowFor(g.0, m, defs), g, m);
    }
    EveryGroupRow(gs, defs, p);
    PutAllEntries(KeyOf, GroupRows(gs, defs));
    forall r | r in MountedRows(pod) ensures FromMount(pod, r) { InValues(Fill(GroupRows(gs, defs)), r); }
  }

  /** Every mount has a row at its place. */
  lemma MountHasRow(pod: Pod, g: Group, m: Mount) returns (r: Row)
    requires GoodNames(pod) && g in Groups(pod) && Mounts(g, m)
    ensures r in MountedRows(pod) && At(r, g, m)
  {
    var defs := VolDefs(pod.volumes);
    var rows := GroupRows(Groups(pod), defs);
    var own := RowFor(g.0, m, defs);
    MountRowIn(Groups(pod), defs, g, m);
    var i :| 0 <= i < |rows| && rows[i] == own;
    assert Map(KeyOf, rows)[i] == KeyOf(own);
    PutAllHas(KeyOf, rows, KeyOf(own));
    var e := EntryWithKey(Fill(rows), KeyOf(own));
    FilledRows(pod, defs);
    NamesOfGroup(pod, g, m);
    KeyTells(e.1, own);
    InValues(Fill(rows), e.1);
    r := e.1;
  }

  /** No two rows are at one place. */
  lemma RowsApart(pod: Pod, i: nat, j: nat)
    requires GoodNames(pod) && i < j < |MountedRows(pod)|
    ensures var r, q := MountedRows(pod)[i], MountedRows(pod)[j];
      !(r.target == q.target && r.name == q.name && r.mountPath == q.mountPath)
  {
    var rows := GroupRows(Groups(pod), VolDefs(pod.volumes));
    var m := Fill(rows);
    FilledRows(pod, VolDefs(pod.volumes));
    PutAllKeys(KeyOf, rows);
    assert Keys(m)[i] != Keys(m)[j] && m[i] in m && m[j] in m;
    KeyTells(m[i].1, m[j].1);
  }

  // ------------------------------------------------------------ the rules across rows

  lemma SameNameOnePlace(pod: Pod, g: Group, h: Group, m: Mount, n: Mount)
    requires GoodNames(pod) && NamesApart(MountedRows(pod)) && Shares(pod, g, h, m, n)
    ensures g.0 == h.0 && m.mountPath == n.mountPath
  {
    var r := MountHasRow(pod, g, m);
    var q := MountHasRow(pod, h, n);
    NamesOfGroup(pod, g, m);
    SameNameSameRow(MountedRows(pod), r, q);
  }

  lemma OnePlaceOneName(pod: Pod, i: nat, j: nat)
    requires GoodNames(pod) && OnePlace(pod) && i < j < |MountedRows(pod)|
    ensures MountedRows(pod)[i].name != MountedRows(pod)[j].name
  {
    var r, q := MountedRows(pod)[i], MountedRows(pod)[j];
    RowHasMount(pod);
    RowsApart(pod, i, j);
    assert FromMount(pod, r) && FromMount(pod, q);
    var g, m :| g in Groups(pod) && Mounts(g, m) && At(r, g, m);
    var h, n :| h in Groups(pod) && Mounts(h, n) && At(q, h, n);
    assert r.name == q.name ==> Shares(pod, g, h, m, n);
  }

  lemma NamesApartOnePlace(pod: Pod)
    requires GoodNames(pod) && NamesApart(MountedRows(pod))
    ensures OnePlace(pod)
  {
    forall g, h, m, n | Shares(pod, g, h, m, n) ensures g.0 == h.0 && m.mountPath == n.mountPath {
      SameNameOnePlace(pod, g, h, m, n);
    }
  }

  lemma NamesApartIff(pod: Pod)
    requires GoodNames(pod)
    ensures NamesApart(MountedRows(pod)) <==> OnePlace(pod)
  {
    var rows := MountedRows(pod);
    if NamesApart(rows) { NamesApartOnePlace(pod); }
    if OnePlace(pod) {
      forall i, j | 0 <= i < j < |rows| && rows[i].name != "" ensures rows[i].name != rows[j].name {
        OnePlaceOneName(pod, i, j);
      }
    }
  }

  lemma SameGroup(pod: Pod, g: Group, h: Group)
    requires g in Groups(pod) && h in Groups(pod) && g.0 == h.0
    ensures g == h
  {
    var i := DistinctTargets(pod, g);
    var j :| 0 <= j < |Groups(pod)| && Groups(pod)[j] == h;
  }

  lemma OneRowAtAPath(rows: seq<Row>, r: Row, q: Row)
    requires PathsApart(PathOf, rows) && r in rows && q in rows
    requires r.target == q.target && PathOf(r).Some? && PathOf(r) == PathOf(q)
    ensures r == q
  {
    var i :| 0 <= i < |rows| && rows[i] == r;
    var j :| 0 <= j < |rows| && rows[j] == q;
    assert i < j ==> !Clash(PathOf, rows, i, j);
    assert j < i ==> !Clash(PathOf, rows, j, i);
  }

  lemma SamePathSameName(pod: Pod, g: Group, m: Mount, n: Mount)
    requires GoodNames(pod) && PathsApart(PathOf, MountedRows(pod)) && SamePath(pod, g, m, n)
    requires forall r :: r in MountedRows(pod) ==> Absolute(r.mountPath)
    ensures m.name == n.name
  {
    var r := MountHasRow(pod, g, m);
    var q := MountHasRow(pod, g, n);
    OneRowAtAPath(MountedRows(pod), r, q);
  }

  lemma ClashSameName(pod: Pod, i: nat, j: nat)
    requires OwnPaths(pod) && i < |MountedRows(pod)| && j < |MountedRows(pod)| && Clash(PathOf, MountedRows(pod), i, j)
    ensures MountedRows(pod)[i].name == MountedRows(pod)[j].name
  {
    var rows := MountedRows(pod);
    RowHasMount(pod);
    assert rows[i] in rows && rows[j] in rows;
    var g, m :| g in Groups(pod) && Mounts(g, m) && At(rows[i], g, m);
    var h, n :| h in Groups(pod) && Mounts(h, n) && At(rows[j], h, n);
    SameGroup(pod, g, h);
    assert SamePath(pod, g, m, n);
  }

  lemma PathsApartIff(pod: Pod)
    requires GoodNames(pod) && NamesApart(MountedRows(pod))
    requires forall r :: r in MountedRows(pod) ==> r.name != "" && Absolute(r.mountPath)
    ensures PathsApart(PathOf, MountedRows(pod)) <==> OwnPaths(pod)
  {
    var rows := MountedRows(pod);
    if PathsApart(PathOf, rows) {
      forall g, m, n | SamePath(pod, g, m, n) ensures m.name == n.name { SamePathSameName(pod, g, m, n); }
    }
    if OwnPaths(pod) {
      forall i, j | 0 <= i < j < |rows| ensures !Clash(PathOf, rows, i, j) {
        assert rows[i] in rows;
        if Clash(PathOf, rows, i, j) { ClashSameName(pod, i, j); }
      }
    }
  }

  // ------------------------------------------------------------ volumes nobody mounts

  lemma MountedMentions(pod: Pod, name: string)
    requires GoodNames(pod)
    ensures Mentions(Fill(GroupRows(Groups(pod), VolDefs(pod.volumes))), name) <==> Mentioned(pod, name)
  {
    var m := Fill(GroupRows(Groups(pod), VolDefs(pod.volumes)));
    RowHasMount(pod);
    if e :| e in m && e.1.name == name {
      InValues(m, e.1);
      assert FromMount(pod, e.1);
    }
    if g, k :| g in Groups(pod) && Mounts(g, k) && k.name == name {
      var r := MountHasRow(pod, g, k);
      InValues(m, r);
    }
  }

  lemma {:induction false} NothingToPlace(m: Table, defs: Defs)
    requires forall d :: d in defs ==> Mentions(m, d.0)
    ensures Place(m, defs) == m
  {
    if defs != [] {
      assert defs[|defs| - 1] in defs;
      NothingToPlace(m, defs[..|defs| - 1]);
    }
  }

  /** A pod whose volumes are all mounted opens with the rows of its mounts. */
  lemma OpensWithMounts(pod: Pod)
    requires GoodNames(pod) && AllMounted(pod)
    ensures Backfill(pod) == MountedRows(pod)
  {
    var defs := VolDefs(pod.volumes);
    DefsEntries(pod.volumes);
    forall d | d in defs ensures Mentions(Fill(GroupRows(Groups(pod), defs)), d.0) { MountedMentions(pod, d.0); }
    NothingToPlace(Fill(GroupRows(Groups(pod), defs)), defs);
  }

  /** The row of a volume that nobody mounts has no path. */
  lemma UnmountedRow(pod: Pod, v: Volume) returns (r: Row)
    requires GoodNames(pod) && v in pod.volumes && !Mentioned(pod, v.name)
    ensures r in Backfill(pod) && r.mountPath == ""
  {
    var defs := VolDefs(pod.volumes);
    var filled := Fill(GroupRows(Groups(pod), defs));
    var p := (q: Row) => q.mountPath == "" || FromMount(pod, q);
    RowHasMount(pod);
    forall e | e in filled ensures p(e.1) { InValues(filled, e.1); }
    PlaceGrows(filled, defs, p);
    r := BackfilledMention(pod, v);
    InValues(Place(filled, defs), r);
  }

  // ------------------------------------------------------------ when the form opens without an error

  lemma RowsOkAllMounted(pod: Pod, ctx: Ctx)
    requires GoodNames(pod) && forall r :: r in Backfill(pod) ==> EntryOk(r, ctx)
    ensures AllMounted(pod)
  {
    forall v | v in pod.volumes ensures Mentioned(pod, v.name) {
      if !Mentioned(pod, v.name) {
        var r := UnmountedRow(pod, v);
        assert false;
      }
    }
  }

  lemma MountedRowsNamed(pod: Pod)
    requires GoodNames(pod)
    ensures forall r :: r in MountedRows(pod) ==> r.name != ""
  {
    RowHasMount(pod);
    forall r | r in MountedRows(pod) ensures r.name != "" {
      var g, m :| g in Groups(pod) && Mounts(g, m) && At(r, g, m);
      NamesOfGroup(pod, g, m);
    }
  }

  /**
   The form of an untouched pod shows no error exactly when every declared volume is mounted, no volume
   is mounted at two places, no two volumes are at one path of a container, and the row of each mount is
   in order. So a pod that shares a volume between containers cannot be saved as it is.
   */
  lemma OpenedPodPassesIff(pod: Pod, ctx: Ctx)
    requires GoodNames(pod)
    ensures Clean(Audit(Backfill(pod), ctx)) <==>
      AllMounted(pod) && OnePlace(pod) && OwnPaths(pod) && forall r :: r in MountedRows(pod) ==> EntryOk(r, ctx)
  {
    GateOpensIff(Backfill(pod), ctx);
    if Clean(Audit(Backfill(pod), ctx)) { RowsOkAllMounted(pod, ctx); }
    if AllMounted(pod) {
      OpensWithMounts(pod);
      NamesApartIff(pod);
      MountedRowsNamed(pod);
      if OnePlace(pod) && forall r :: r in MountedRows(pod) ==> EntryOk(r, ctx) { PathsApartIff(pod); }
    }
  }

  const DATA := Mount("data", "/data", "", false)

  const SHARING := Pod([Container(false, [DATA]), Container(false, [DATA])], [], [Volume("data", EmptyDirSource)])

  /** A volume that two containers mount keeps the form from opening without an error. */
  lemma SharedVolumeFails(pod: Pod, ctx: Ctx, g: Group, h: Group, m: Mount, n: Mount)
    requires GoodNames(pod) && g in Groups(pod) && h in Groups(pod) && Mounts(g, m) && Mounts(h, n)
    requires m.name == n.name && g.0 != h.0
    ensures !Clean(Audit(Backfill(pod), ctx))
  {
    assert Shares(pod, g, h, m, n);
    OpenedPodPassesIff(pod, ctx);
  }

  lemma SharingGroups() returns (main: Group, side: Group)
    ensures main in Groups(SHARING) && side in Groups(SHARING)
    ensures main.0 != side.0 && main.1 == [DATA] && side.1 == [DATA]
  {
    main, side := ("main", [DATA]), (SidecarTarget(0), [DATA]);
    assert MainGroup(SHARING) == [main] && PlainSidecars(SHARING) == [Container(false, [DATA])];
    assert Labeled(SidecarTarget, 0, PlainSidecars(SHARING)) == [side];
    assert main.0[0] == 'm' && side.0[0] == 's';
  }

  /**
   An emptyDir mounted by the main container and by a sidecar: the form opens with an error, whatever else
   is known.
   */
  lemma SharedVolumeIsReported(ctx: Ctx)
    ensures GoodNames(SHARING) && !Clean(Audit(Backfill(SHARING), ctx))
  {
    var main, side := SharingGroups();
    SharedVolumeFails(SHARING, ctx, main, side, DATA, DATA);
  }
}
