/**
 Which rows the rules across rows report on (src/logic/volumeMountValidation.js): clashing and nested mount
 paths, and repeated volume names.
 */
module GateCross {
  import opened Wrappers
  import opened Seqs
  import opened OrderedMap
  import opened Volumes
  import opened MountGate
  import GateRules

  // ------------------------------------------------------------ from problems to rows

  lemma {:induction false} PushedOn(byEntry: seq<seq<Issue>>, rows: seq<nat>, x: Issue, k: nat, y: Issue)
    requires k < |byEntry|
    ensures |Push(byEntry, rows, x)| == |byEntry|
    ensures y in Push(byEntry, rows, x)[k] <==> y in byEntry[k] || (y == x && k in rows)
  {
    if rows != [] {
      var before, i := rows[..|rows| - 1], rows[|rows| - 1];
      PushedOn(byEntry, before, x, k, y);
      assert rows == before + [i];
    }
  }

  lemma {:induction false} DeliveredOn(byEntry: seq<seq<Issue>>, cross: seq<Cross>, k: nat, y: Issue)
    requires k < |byEntry|
    ensures |Delivered(byEntry, cross)| == |byEntry|
    ensures y in Delivered(byEntry, cross)[k] <==>
      y in byEntry[k] || exists c :: c in cross && c.issue == y && k in c.rows
  {
    if cross != [] {
      var before, c := cross[..|cross| - 1], cross[|cross| - 1];
      DeliveredOn(byEntry, before, k, y);
      PushedOn(Delivered(byEntry, before), c.rows, c.issue, k, y);
      assert cross == before + [c];
    }
  }

  /** A row's report: its own issues, and the problems it shares with other rows. */
  lemma AuditOf(list: seq<Row>, ctx: Ctx, k: nat, y: Issue)
    requires k < |list|
    ensures |Audit(list, ctx)| == |list|
    ensures y in Audit(list, ctx)[k] <==>
      || y in EntryIssues(list[k], ctx)
      || (exists c :: c in FlatMap(GroupCross, Values(Grouped(PathOf, list))) && c.issue == y && k in c.rows)
      || (exists c :: c in NameCross(list) && c.issue == y && k in c.rows)
  {
    DeliveredOn(Map(RowIssues(ctx), list), AllCross(list, ctx), k, y);
    NoOrphans(list, ctx);
    var groups := FlatMap(GroupCross, Values(Grouped(PathOf, list)));
    assert AllCross(list, ctx) == groups + NameCross(list);
    assert forall c :: c in groups + NameCross(list) <==> c in groups || c in NameCross(list);
  }

  // ------------------------------------------------------------ pairs of paths

  /** c is the problem of two entries of the group. */
  ghost predicate OfPair(g: seq<(nat, string)>, c: Cross) {
    exists a, b :: 0 <= a < b < |g| && c in PairIssue(g[a], g[b])
  }

  lemma OfPairTail(x: (nat, string), g: seq<(nat, string)>, c: Cross)
    requires OfPair(g, c)
    ensures OfPair([x] + g, c)
  {
    var a, b :| 0 <= a < b < |g| && c in PairIssue(g[a], g[b]);
    var all := [x] + g;
    assert c in PairIssue(all[a + 1], all[b + 1]);
  }

  lemma OfPairHead(x: (nat, string), g: seq<(nat, string)>, y: (nat, string), c: Cross)
    requires y in g && c in PairIssue(x, y)
    ensures OfPair([x] + g, c)
  {
    var b :| 0 <= b < |g| && g[b] == y;
    var all := [x] + g;
    assert c in PairIssue(all[0], all[b + 1]);
  }

  lemma OfPairSplit(x: (nat, string), g: seq<(nat, string)>, c: Cross) returns (b: nat)
    requires OfPair([x] + g, c)
    ensures OfPair(g, c) || (b < |g| && c in PairIssue(x, g[b]))
  {
    var all := [x] + g;
    var a, b' :| 0 <= a < b' < |all| && c in PairIssue(all[a], all[b']);
    b := b' - 1;
    assert all[b'] == g[b];
    if a > 0 {
      assert all[a] == g[a - 1];
      assert c in PairIssue(g[a - 1], g[b]);
    }
  }

  lemma OfPairCons(x: (nat, string), g: seq<(nat, string)>, c: Cross)
    ensures OfPair([x] + g, c) <==> OfPair(g, c) || exists y :: y in g && c in PairIssue(x, y)
  {
    if OfPair(g, c) { OfPairTail(x, g, c); }
    if y :| y in g && c in PairIssue(x, y) { OfPairHead(x, g, y, c); }
    if OfPair([x] + g, c) { var b := OfPairSplit(x, g, c); }
  }

  lemma {:induction false} InGroup(g: seq<(nat, string)>, c: Cross)
    ensures c in GroupCross(g) <==> OfPair(g, c)
  {
    if g != [] {
      InGroup(g[1..], c);
      InFlatMap(Against(g[0]), g[1..], c);
      OfPairCons(g[0], g[1..], c);
      assert g == [g[0]] + g[1..];
    }
  }

  /** The problem of rows i and j, i before j, when they share a target and both have a path. */
  ghost predicate OfRows(list: seq<Row>, i: nat, j: nat, c: Cross) {
    && i < j < |list| && list[i].target == list[j].target && PathOf(list[i]).Some? && PathOf(list[j]).Some?
    && c in PairIssue((i, PathOf(list[i]).value), (j, PathOf(list[j]).value))
  }

  lemma PairOfRows(list: seq<Row>, t: string, c: Cross)
    requires OfPair(PathsAt(PathOf, list, t), c)
    ensures exists i: nat, j: nat :: OfRows(list, i, j, c)
  {
    var g := PathsAt(PathOf, list, t);
    PathsAtSpec(PathOf, list, t);
    var a, b :| 0 <= a < b < |g| && c in PairIssue(g[a], g[b]);
    assert g[a] in g && g[b] in g;
    assert OfRows(list, g[a].0, g[b].0, c);
  }

  lemma RowsOfPair(list: seq<Row>, i: nat, j: nat, c: Cross)
    requires OfRows(list, i, j, c)
    ensures OfPair(PathsAt(PathOf, list, list[i].target), c)
  {
    var g := PathsAt(PathOf, list, list[i].target);
    PathsAtSpec(PathOf, list, list[i].target);
    var p, q := (i, PathOf(list[i]).value), (j, PathOf(list[j]).value);
    assert p in g && q in g;
    var a :| 0 <= a < |g| && g[a] == p;
    var b :| 0 <= b < |g| && g[b] == q;
    assert !(b < a) && b != a;
    assert c in PairIssue(g[a], g[b]);
  }

  /** The groups of the report are the rows of each target. */
  lemma InGroups(list: seq<Row>, c: Cross)
    ensures c in FlatMap(GroupCross, Values(Grouped(PathOf, list))) <==> exists i: nat, j: nat :: OfRows(list, i, j, c)
  {
    var m := Grouped(PathOf, list);
    InFlatMap(GroupCross, Values(m), c);
    if g :| g in Values(m) && c in GroupCross(g) {
      InGroup(g, c);
      var k :| 0 <= k < |m| && Values(m)[k] == g;
      GroupedIsPathsAt(PathOf, list, m[k].0);
      GetOfEntry(m, k);
      PairOfRows(list, m[k].0, c);
    }
    if i: nat, j: nat :| OfRows(list, i, j, c) {
      var t := list[i].target;
      RowsOfPair(list, i, j, c);
      GroupedIsPathsAt(PathOf, list, t);
      InGroup(PathsAt(PathOf, list, t), c);
      var k :| 0 <= k < |m| && m[k] == (t, Get(m, t).value);
      assert Values(m)[k] == PathsAt(PathOf, list, t);
    }
  }

  // ------------------------------------------------------------ clashing and nested paths

  predicate Rooted(e: Row) { GateRules.Rooted(e.mountPath) }

  /** Two rows that would mount onto one place of one container. */
  predicate SamePlace(a: Row, b: Row) {
    a.target == b.target && Rooted(a) && Rooted(b) && Normalize(a.mountPath) == Normalize(b.mountPath)
  }

  /** q lies in the directory p, which is not the root. */
  predicate Inside(p: string, q: string) { p != "/" && |q| > |p| && q[..|p|] == p && q[|p|] == '/' }

  predicate OneInside(a: Row, b: Row) {
    && a.target == b.target && Rooted(a) && Rooted(b)
    && var p, q := Normalize(a.mountPath), Normalize(b.mountPath);
       Inside(p, q) || Inside(q, p)
  }

  lemma InsideIff(p: string, q: string)
    requires p != "" && q != ""
    ensures Nested(p, q) <==> Inside(p, q) || Inside(q, p)
  {
    assert p + "/" <= q <==> |q| > |p| && q[..|p|] == p && q[|p|] == '/' by {
      assert p + "/" <= q ==> q[..|p|] == (p + "/")[..|p|] && q[|p|] == (p + "/")[|p|];
      assert |q| > |p| && q[..|p|] == p && q[|p|] == '/' ==> q[..|p| + 1] == p + "/";
    }
    assert q + "/" <= p <==> |p| > |q| && p[..|q|] == q && p[|q|] == '/' by {
      assert q + "/" <= p ==> p[..|q|] == (q + "/")[..|q|] && p[|q|] == (q + "/")[|q|];
      assert |p| > |q| && p[..|q|] == q && p[|q|] == '/' ==> p[..|q| + 1] == q + "/";
    }
  }

  /** What two rows of one target have between them. */
  lemma PairOf(list: seq<Row>, i: nat, j: nat, c: Cross)
    requires i < j < |list|
    ensures OfRows(list, i, j, c) <==>
      || (c == Cross(Issue(MountPathDuplicate, Error), [i, j]) && SamePlace(list[i], list[j]))
      || (c == Cross(Issue(MountPathNested, Warn), [i, j]) && OneInside(list[i], list[j]))
  {
    var a, b := list[i], list[j];
    if a.target == b.target && Rooted(a) && Rooted(b) {
      NormalizeSpec(a.mountPath);
      NormalizeSpec(b.mountPath);
      InsideIff(Normalize(a.mountPath), Normalize(b.mountPath));
    }
  }

  lemma NotOfOneRow(e: Row, ctx: Ctx, x: Issue)
    requires x.code in {MountPathDuplicate, MountPathNested, VolumeNameDuplicate}
    ensures x !in EntryIssues(e, ctx)
  {
    GateRules.InEntry(e, ctx, x);
    GateRules.PartCodes(e, x);
    GateRules.ItemCodes(e.volume.items, AllKeys(e, ctx), x);
  }

  lemma {:induction false} NameCodes(list: seq<Row>)
    ensures forall c :: c in NameCross(list) ==> c.issue == Issue(VolumeNameDuplicate, Error)
  {
    if list != [] { NameCodes(list[..|list| - 1]); }
  }

  ghost predicate CodeOf(x: Issue, together: (Row, Row) -> bool) {
    || (x == Issue(MountPathDuplicate, Error) && forall a, b :: together(a, b) <==> SamePlace(a, b))
    || (x == Issue(MountPathNested, Warn) && forall a, b :: together(a, b) <==> OneInside(a, b))
  }

  /** The other row of a problem that row k is told of. */
  lemma OtherRow(list: seq<Row>, c: Cross, k: nat, together: (Row, Row) -> bool) returns (j: nat)
    requires c in FlatMap(GroupCross, Values(Grouped(PathOf, list))) && k in c.rows && CodeOf(c.issue, together)
    ensures k < |list| && j < |list| && j != k && together(list[j], list[k])
  {
    InGroups(list, c);
    var lo: nat, hi: nat :| OfRows(list, lo, hi, c);
    PairOf(list, lo, hi, c);
    assert k == lo || k == hi;
    j := if k == lo then hi else lo;
    assert together(list[lo], list[hi]) && together(list[hi], list[lo]);
  }

  lemma SharedProblem(list: seq<Row>, lo: nat, hi: nat, x: Issue, together: (Row, Row) -> bool)
    requires lo < hi < |list| && CodeOf(x, together) && together(list[lo], list[hi])
    ensures Cross(x, [lo, hi]) in FlatMap(GroupCross, Values(Grouped(PathOf, list)))
  {
    PairOf(list, lo, hi, Cross(x, [lo, hi]));
    InGroups(list, Cross(x, [lo, hi]));
  }

  /** The problems of paths that a row is told of are those of the groups. */
  lemma ToldOfPath(list: seq<Row>, ctx: Ctx, k: nat, x: Issue)
    requires k < |list| && x.code in {MountPathDuplicate, MountPathNested}
    ensures |Audit(list, ctx)| == |list|
    ensures x in Audit(list, ctx)[k] <==>
      exists c :: c in FlatMap(GroupCross, Values(Grouped(PathOf, list))) && c.issue == x && k in c.rows
  {
    AuditOf(list, ctx, k, x);
    NotOfOneRow(list[k], ctx, x);
    NameCodes(list);
  }

  /** Row k is told of a problem of its path exactly when it has it with some other row. */
  lemma PathReport(list: seq<Row>, ctx: Ctx, k: nat, x: Issue, together: (Row, Row) -> bool)
    requires k < |list| && CodeOf(x, together)
    ensures |Audit(list, ctx)| == |list|
    ensures x in Audit(list, ctx)[k] <==> exists j: nat :: j < |list| && j != k && together(list[j], list[k])
  {
    ToldOfPath(list, ctx, k, x);
    if x in Audit(list, ctx)[k] {
      var c :| c in FlatMap(GroupCross, Values(Grouped(PathOf, list))) && c.issue == x && k in c.rows;
      var j := OtherRow(list, c, k, together);
    }
    if j: nat :| j < |list| && j != k && together(list[j], list[k]) {
      TellBoth(list, j, k, x, together);
    }
  }

  lemma TellBoth(list: seq<Row>, j: nat, k: nat, x: Issue, together: (Row, Row) -> bool)
    requires j < |list| && k < |list| && j != k && CodeOf(x, together) && together(list[j], list[k])
    ensures exists c :: c in FlatMap(GroupCross, Values(Grouped(PathOf, list))) && c.issue == x && k in c.rows
  {
    var lo, hi := if j < k then j else k, if j < k then k else j;
    assert together(list[lo], list[hi]);
    SharedProblem(list, lo, hi, x, together);
    assert k in Cross(x, [lo, hi]).rows;
  }

  /** A row is told of a clash exactly when another row of its container mounts onto the same place. */
  lemma ClashReported(list: seq<Row>, ctx: Ctx, k: nat)
    requires k < |list|
    ensures |Audit(list, ctx)| == |list|
    ensures Issue(MountPathDuplicate, Error) in Audit(list, ctx)[k] <==>
      exists j: nat :: j < |list| && j != k && SamePlace(list[j], list[k])
  {
    PathReport(list, ctx, k, Issue(MountPathDuplicate, Error), SamePlace);
  }

  /** And warned of nesting exactly when another row of its container mounts above or below it. */
  lemma NestingReported(list: seq<Row>, ctx: Ctx, k: nat)
    requires k < |list|
    ensures |Audit(list, ctx)| == |list|
    ensures Issue(MountPathNested, Warn) in Audit(list, ctx)[k] <==>
      exists j: nat :: j < |list| && j != k && OneInside(list[j], list[k])
  {
    PathReport(list, ctx, k, Issue(MountPathNested, Warn), OneInside);
  }

  // ------------------------------------------------------------ repeated names

  /** Row i is the first of its name, which is not empty. */
  ghost predicate FirstOf(list: seq<Row>, name: string, i: nat) {
    i < |list| && name != "" && list[i].name == name && forall j :: 0 <= j < i ==> list[j].name != name
  }

  lemma FirstNameLast(before: seq<Row>, e: Row, name: string)
    ensures FirstNamed(before + [e], name) ==
      if name != "" && e.name == name && FirstNamed(before, name).None? then Some(|before|)
      else FirstNamed(before, name)
  {
    assert (before + [e])[..|before|] == before;
    FirstNamesSpec(before);
    GetPut<string, nat>(FirstNames(before), e.name, |before|, name);
  }

  lemma {:induction false} FirstNameAt(list: seq<Row>, name: string)
    ensures
      var first := FirstNamed(list, name);
      if first.Some? then FirstOf(list, name, first.value) else name == "" || forall e :: e in list ==> e.name != name
  {
    if list != [] {
      var before, e := list[..|list| - 1], list[|list| - 1];
      assert list == before + [e];
      FirstNameAt(before, name);
      FirstNameLast(before, e, name);
      assert forall j :: 0 <= j < |before| ==> list[j] in before;
    }
  }

  /** Row n finds its name taken: the problem it shares with the first row of that name. */
  lemma {:induction false} TakenReported(list: seq<Row>, n: nat, i: nat)
    requires n < |list| && i < n && FirstOf(list, list[n].name, i)
    ensures Cross(Issue(VolumeNameDuplicate, Error), [i, n]) in NameCross(list)
  {
    var last := |list| - 1;
    if n < last {
      TakenReported(list[..last], n, i);
    } else {
      FirstNameAt(list[..last], list[n].name);
      assert list[i] == list[..last][i];
    }
  }

  lemma FirstClash(before: seq<Row>, e: Row, c: Cross)
    requires c in NameClash(e.name, FirstNamed(before, e.name), |before|)
    ensures
      var first := FirstNamed(before, e.name);
      first.Some? && c.rows == [first.value, |before|] && FirstOf(before, e.name, first.value)
  {
    FirstNameAt(before, e.name);
  }

  /** A problem with names is one of a row whose name is taken, with the first row of that name. */
  lemma {:induction false} ReportedTaken(list: seq<Row>, c: Cross) returns (i: nat, n: nat)
    requires c in NameCross(list)
    ensures i < n < |list| && c.rows == [i, n] && FirstOf(list, list[n].name, i)
  {
    var last := |list| - 1;
    if c in NameCross(list[..last]) {
      i, n := ReportedTaken(list[..last], c);
    } else {
      FirstClash(list[..last], list[last], c);
      i, n := FirstNamed(list[..last], list[last].name).value, last;
    }
  }

  lemma PathCodes(list: seq<Row>, c: Cross)
    requires c in FlatMap(GroupCross, Values(Grouped(PathOf, list)))
    ensures c.issue.code != VolumeNameDuplicate
  {
    InGroups(list, c);
    var i: nat, j: nat :| OfRows(list, i, j, c);
  }

  /** The problems of names that a row is told of. */
  lemma ToldOfName(list: seq<Row>, ctx: Ctx, k: nat)
    requires k < |list|
    ensures |Audit(list, ctx)| == |list|
    ensures Issue(VolumeNameDuplicate, Error) in Audit(list, ctx)[k] <==>
      exists c :: c in NameCross(list) && k in c.rows
  {
    var x := Issue(VolumeNameDuplicate, Error);
    AuditOf(list, ctx, k, x);
    NotOfOneRow(list[k], ctx, x);
    forall c | c in FlatMap(GroupCross, Values(Grouped(PathOf, list))) ensures c.issue != x { PathCodes(list, c); }
    NameCodes(list);
  }

  /** Of two rows of one name, k and another, the pair that is reported and holds k. */
  lemma SharedName(list: seq<Row>, name: string, j: nat, k: nat) returns (i: nat, n: nat)
    requires j < |list| && k < |list| && j != k && name != "" && list[j].name == list[k].name == name
    ensures i < n < |list| && FirstOf(list, name, i) && list[n].name == name && (k == i || k == n)
  {
    FirstNameAt(list, name);
    assert list[k] in list;
    i := FirstNamed(list, name).value;
    n := if k == i then j else k;
  }

  lemma TellOfName(list: seq<Row>, j: nat, k: nat)
    requires j < |list| && k < |list| && j != k && list[k].name != "" && list[j].name == list[k].name
    ensures exists c :: c in NameCross(list) && k in c.rows
  {
    var i, n := SharedName(list, list[k].name, j, k);
    TakenReported(list, n, i);
    assert k in Cross(Issue(VolumeNameDuplicate, Error), [i, n]).rows;
  }

  /** A row is told that its name is taken exactly when another row has it too. */
  lemma NameReported(list: seq<Row>, ctx: Ctx, k: nat)
    requires k < |list|
    ensures |Audit(list, ctx)| == |list|
    ensures Issue(VolumeNameDuplicate, Error) in Audit(list, ctx)[k] <==>
      list[k].name != "" && exists j: nat :: j < |list| && j != k && list[j].name == list[k].name
  {
    ToldOfName(list, ctx, k);
    if c :| c in NameCross(list) && k in c.rows {
      var i, n := ReportedTaken(list, c);
      assert list[i].name == list[n].name;
    }
    if j: nat :| j < |list| && j != k && list[k].name != "" && list[j].name == list[k].name {
      TellOfName(list, j, k);
    }
  }
}
