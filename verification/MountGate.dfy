/**
 The storage gate (src/logic/volumeMountValidation.js): per-row rules, rules across rows, and what passing
 it guarantees.
 */
module MountGate {
  import opened Wrappers
  import opened Seqs
  import opened JsText
  import opened OrderedMap
  import opened Volumes

  datatype Level = Error | Warn | Hint

  datatype Code =
    | SourceRequired | MountPathBackslash | MountPathRequired | MountPathNormalized | MountPathRoot
    | SystemPathRuntime | SystemPathEtc | SystemPathSaToken | SystemPathShadow | TargetInvalid
    | ItemPathInvalid | ItemPathDuplicate | ItemKeyMissing | ItemsIncomplete | ItemsHideRest | SourceNotFound
    | SubPathInvalid | SubPathSingleFileNote | NfsPathRoot | NfsPathInvalid | HostPathSensitive | ReadOnlySuggested
    | DefaultModeInvalid | DefaultModePermissive | SubPathNotInVolume
    | MountPathDuplicate | MountPathNested | VolumeNameDuplicate | OrphanMount

  datatype Issue = Issue(code: Code, level: Level)

  /** What is known about the namespace; None where a list has not been loaded. */
  datatype Ctx = Ctx(
    validTargets: Option<seq<string>>, cmKeys: Option<map<string, seq<string>>>,
      secretKeys: Option<map<string, seq<string>>>,
    knownCms: Option<set<string>>, knownSecrets: Option<set<string>>, knownPvcs: Option<set<string>>)

  // ------------------------------------------------------------ paths

  /** s.replace(/\/{2,}/g, '/') */
  function Collapse(s: string): string {
    if |s| >= 2 && s[0] == '/' && s[1] == '/' then Collapse(s[1..])
    else if s == "" then ""
    else [s[0]] + Collapse(s[1..])
  }

  /** s.replace(/\/+$/, '') */
  function DropSlashes(s: string): string {
    if s != "" && s[|s| - 1] == '/' then DropSlashes(s[..|s| - 1]) else s
  }

  function Normalize(p: string): string {
    var s := Collapse(Trim(p));
    if |s| > 1 then DropSlashes(s) else s
  }

  predicate NoDouble(s: string) { forall i :: 0 <= i < |s| - 1 ==> s[i] != '/' || s[i + 1] != '/' }

  lemma {:induction false} CollapseSpec(s: string)
    ensures NoDouble(Collapse(s))
    ensures s == "" <==> Collapse(s) == ""
    ensures s != "" ==> Collapse(s)[0] == s[0]
    ensures NoDouble(s) ==> Collapse(s) == s
  {
    if s != "" {
      CollapseSpec(s[1..]);
      var r := Collapse(s[1..]);
      if !(|s| >= 2 && s[0] == '/' && s[1] == '/') {
        assert Collapse(s) == [s[0]] + r;
      }
    }
  }

  lemma {:induction false} DropSlashesSpec(s: string)
    ensures DropSlashes(s) <= s
    ensures DropSlashes(s) != "" ==> DropSlashes(s)[|DropSlashes(s)| - 1] != '/'
    ensures forall i :: |DropSlashes(s)| <= i < |s| ==> s[i] == '/'
  {
    if s != "" && s[|s| - 1] == '/' {
      DropSlashesSpec(s[..|s| - 1]);
    }
  }

  /** A path as it should be written: no doubled slash, and no slash at the end except for the root. */
  predicate Tidy(p: string) { NoDouble(p) && (|p| > 1 ==> p[|p| - 1] != '/') }

  /**
   A normalised absolute path is tidy and absolute; a tidy path without white space at its ends is its own
   normal form.
   */
  lemma NormalizeSpec(p: string)
    ensures p != "" && p[0] == '/' ==> Normalize(p) != "" && Normalize(p)[0] == '/' && Tidy(Normalize(p))
    ensures Trimmed(p) && Tidy(p) ==> Normalize(p) == p
  {
    var s := Collapse(Trim(p));
    CollapseSpec(Trim(p));
    DropSlashesSpec(s);
    TrimIsTrimmed(p);
    if p != "" && p[0] == '/' {
      TrimFirst(p);
      if |s| > 1 {
        assert s[0] == '/' && s[1] != '/';
        assert DropSlashes(s) != "" && DropSlashes(s)[0] == s[0];
      }
    }
    if Trimmed(p) && Tidy(p) && |s| > 1 {
      assert s == p;
      assert DropSlashes(s) == s;
    }
  }

  const RUNTIME_PATHS := ["/proc", "/sys", "/dev"]
  const ETC_PATHS := ["/etc/hosts", "/etc/resolv.conf", "/etc/hostname"]
  const SHADOW_PATHS := ["/etc", "/usr", "/bin", "/sbin", "/lib", "/root", "/var/lib"]
  const HOSTPATH_SENSITIVE := ["/", "/etc", "/var/run", "/var/run/docker.sock", "/root", "/home", "/proc", "/sys",
    "/dev"]

  predicate IsSaToken(p: string) { p == "/var/run/secrets" || "/var/run/secrets/" <= p }

  /** The paths no mount may take. */
  predicate Blocked(p: string) { p == "/" || p in RUNTIME_PATHS || p in ETC_PATHS || IsSaToken(p) }

  predicate Absolute(p: string) { p != "" && p[0] == '/' }

  // ------------------------------------------------------------ the rules of one row

  function When(c: bool, code: Code, level: Level): seq<Issue> { if c then [Issue(code, level)] else [] }

  predicate IsProjection(e: Row) { e.volume.kind.ConfigMap? || e.volume.kind.Secret? }

  /** The field that names the source, for the kinds that need one. */
  function SourceField(e: Row): Option<string> {
    match e.volume.kind
    case Pvc => Some(e.volume.pvcName)
    case HostPath => Some(e.volume.hostPath)
    case Nfs => Some(e.volume.server)
    case ConfigMap => Some(e.volume.cmName)
    case Secret => Some(e.volume.secretName)
    case _ => None
  }

  predicate LacksSource(e: Row) { SourceField(e) == Some("") }

  function MountPathIssues(p: string): seq<Issue> {
    When('\\' in p, MountPathBackslash, Warn) +
    if !Absolute(p) then [Issue(MountPathRequired, Error)]
    else
      var norm := Normalize(p);
      When(norm != p, MountPathNormalized, Hint) + When(norm == "/", MountPathRoot, Error) +
      if norm in RUNTIME_PATHS then [Issue(SystemPathRuntime, Error)]
      else if norm in ETC_PATHS then [Issue(SystemPathEtc, Error)]
      else if IsSaToken(norm) then [Issue(SystemPathSaToken, Error)]
      else When(norm in SHADOW_PATHS, SystemPathShadow, Warn)
  }

  /**
   The keys of the projected object, where they are known. A config map name left over in a secret row is
   taken first.
   */
  function AllKeys(e: Row, ctx: Ctx): Option<seq<string>> {
    var keysMap := if e.volume.kind.Secret? then ctx.secretKeys else ctx.cmKeys;
    var name := if e.volume.cmName != "" then e.volume.cmName else e.volume.secretName;
    if IsProjection(e) && keysMap.Some? && name in keysMap.value then Some(keysMap.value[name]) else None
  }

  predicate BadItemPath(p: string) {
    Absolute(p) || '\\' in p || (exists c :: c in p && IsSpace(c)) || "" in Split(p, '/') || ".." in Split(p, '/')
  }

  predicate BlankItem(it: Item) { it.key == "" && it.path == "" }

  predicate HalfItem(it: Item) { !BlankItem(it) && !FullItem(it) }

  function ItemIssues(seen: seq<Item>, it: Item, allKeys: Option<seq<string>>): seq<Issue> {
    if !FullItem(it) then []
    else
      When(BadItemPath(it.path), ItemPathInvalid, Error)
      + When(exists q :: q in seen && FullItem(q) && q.path == it.path, ItemPathDuplicate, Warn)
      + When(allKeys.Some? && it.key !in allKeys.value, ItemKeyMissing, Error)
  }

  function ItemsIssues(items: seq<Item>, allKeys: Option<seq<string>>): seq<Issue> {
    if items == [] then []
    else
      var before := items[..|items| - 1];
      ItemsIssues(before, allKeys) + ItemIssues(before, items[|items| - 1], allKeys)
  }

  predicate Unknown(name: string, known: Option<set<string>>) { name != "" && known.Some? && name !in known.value }

  predicate SourceMissing(e: Row, ctx: Ctx) {
    match e.volume.kind
    case ConfigMap => Unknown(e.volume.cmName, ctx.knownCms)
    case Secret => Unknown(e.volume.secretName, ctx.knownSecrets)
    case Pvc => Unknown(e.volume.pvcName, ctx.knownPvcs)
    case _ => false
  }

  predicate BadSubPath(p: string) { Absolute(p) || ".." in Split(p, '/') }

  function SubPathIssues(p: string): seq<Issue> {
    if p == "" then [] else if BadSubPath(p) then [Issue(SubPathInvalid, Error)]
    else [Issue(SubPathSingleFileNote, Hint)]
  }

  function NfsIssues(e: Row): seq<Issue> {
    if !e.volume.kind.Nfs? || e.volume.server == "" then []
    else if e.volume.nfsPath == "" then [Issue(NfsPathRoot, Warn)]
    else When(!Absolute(e.volume.nfsPath), NfsPathInvalid, Error)
  }

  predicate SensitiveHostPath(e: Row) {
    e.volume.kind.HostPath? && e.volume.hostPath != "" && Normalize(e.volume.hostPath) in HOSTPATH_SENSITIVE
  }

  predicate BadMode(e: Row) {
    IsProjection(e) && e.volume.defaultMode != "" && DefaultModeToInt(e.volume.defaultMode).None?
  }

  function ModeIssues(e: Row): seq<Issue> {
    var m := e.volume.defaultMode;
    if BadMode(e) then [Issue(DefaultModeInvalid, Error)]
    else When(IsProjection(e) && m != "" && m != "0400" && m != "0640", DefaultModePermissive, Hint)
  }

  function Used(e: Row): seq<Item> { Filter(FullItem, e.volume.items) }

  predicate HidesRest(e: Row, allKeys: Option<seq<string>>) {
    IsProjection(e) && Used(e) != [] && allKeys.Some? && |allKeys.value| > |Used(e)|
  }

  predicate SubPathAbsent(e: Row, allKeys: Option<seq<string>>) {
    && IsProjection(e) && e.subPath != "" && !BadSubPath(e.subPath)
    && if Used(e) != [] then forall it :: it in Used(e) ==> it.path != e.subPath
       else allKeys.Some? && e.subPath !in allKeys.value
  }

  predicate BadTarget(e: Row, ctx: Ctx) { ctx.validTargets.Some? && e.target !in ctx.validTargets.value }

  predicate HasHalfItem(items: seq<Item>) { exists it :: it in items && HalfItem(it) }

  function EntryIssues(e: Row, ctx: Ctx): seq<Issue> {
    var allKeys := AllKeys(e, ctx);
    When(LacksSource(e), SourceRequired, Error)
    + MountPathIssues(e.mountPath)
    + When(BadTarget(e, ctx), TargetInvalid, Error)
    + ItemsIssues(e.volume.items, allKeys)
    + When(HasHalfItem(e.volume.items), ItemsIncomplete, Error)
    + When(HidesRest(e, allKeys), ItemsHideRest, Hint)
    + When(SourceMissing(e, ctx), SourceNotFound, Error)
    + SubPathIssues(e.subPath)
    + NfsIssues(e)
    + When(SensitiveHostPath(e), HostPathSensitive, Error)
    + When(IsProjection(e) && !e.readOnly, ReadOnlySuggested, Hint)
    + ModeIssues(e)
    + When(SubPathAbsent(e, allKeys), SubPathNotInVolume, Warn)
  }

  method CheckItems(items: seq<Item>, allKeys: Option<seq<string>>) returns (issues: seq<Issue>, incomplete: bool)
    ensures issues == ItemsIssues(items, allKeys) && incomplete == HasHalfItem(items)
  {
    issues, incomplete := [], false;
    for i := 0 to |items|
      invariant issues == ItemsIssues(items[..i], allKeys)
      invariant incomplete == HasHalfItem(items[..i])
    {
      assert items[..i + 1][..i] == items[..i];
      if HalfItem(items[i]) { incomplete := true; }
      issues := issues + ItemIssues(items[..i], items[i], allKeys);
    }
    assert items[..|items|] == items;
  }

  method ValidateEntry(e: Row, ctx: Ctx) returns (issues: seq<Issue>)
    ensures issues == EntryIssues(e, ctx)
  {
    var allKeys := AllKeys(e, ctx);
    var items, incomplete := CheckItems(e.volume.items, allKeys);
    issues := When(LacksSource(e), SourceRequired, Error)
      + MountPathIssues(e.mountPath)
      + When(BadTarget(e, ctx), TargetInvalid, Error)
      + items
      + When(incomplete, ItemsIncomplete, Error)
      + When(HidesRest(e, allKeys), ItemsHideRest, Hint)
      + When(SourceMissing(e, ctx), SourceNotFound, Error)
      + SubPathIssues(e.subPath)
      + NfsIssues(e)
      + When(SensitiveHostPath(e), HostPathSensitive, Error)
      + When(IsProjection(e) && !e.readOnly, ReadOnlySuggested, Hint)
      + ModeIssues(e)
      + When(SubPathAbsent(e, allKeys), SubPathNotInVolume, Warn);
  }

  // ------------------------------------------------------------ what a clean row means

  predicate NoErrors(issues: seq<Issue>) { forall x :: x in issues ==> x.level != Error }

  predicate ItemOk(it: Item, allKeys: Option<seq<string>>) {
    BlankItem(it) || (FullItem(it) && !BadItemPath(it.path) && (allKeys.Some? ==> it.key in allKeys.value))
  }

  /** What the gate asks of one row, each demand said once. */
  predicate EntryOk(e: Row, ctx: Ctx) {
    && !LacksSource(e) && !SourceMissing(e, ctx)
    && Absolute(e.mountPath) && !Blocked(Normalize(e.mountPath))
    && !BadTarget(e, ctx)
    && (forall it :: it in e.volume.items ==> ItemOk(it, AllKeys(e, ctx)))
    && (e.subPath == "" || !BadSubPath(e.subPath))
    && (e.volume.kind.Nfs? && e.volume.nfsPath != "" && e.volume.server != "" ==> Absolute(e.volume.nfsPath))
    && !SensitiveHostPath(e)
    && !BadMode(e)
  }

  /** The last item beside those before it. */
  lemma LastItemIff(before: seq<Item>, last: Item, allKeys: Option<seq<string>>)
    requires NoErrors(ItemsIssues(before, allKeys)) && !HasHalfItem(before) <==>
      forall it :: it in before ==> ItemOk(it, allKeys)
    ensures
      NoErrors(ItemsIssues(before, allKeys) + ItemIssues(before, last, allKeys))
      && !HasHalfItem(before) && !HalfItem(last) <==>
      (forall it :: it in before ==> ItemOk(it, allKeys)) && ItemOk(last, allKeys)
  {
    NoErrorsAppend(ItemsIssues(before, allKeys), ItemIssues(before, last, allKeys));
    OneItemIff(before, last, allKeys);
  }

  lemma HalfItemLast(items: seq<Item>)
    requires items != []
    ensures HasHalfItem(items) <==> HasHalfItem(items[..|items| - 1]) || HalfItem(items[|items| - 1])
    ensures forall it :: it in items <==> it in items[..|items| - 1] || it == items[|items| - 1]
  {
    assert items == items[..|items| - 1] + [items[|items| - 1]];
  }

  lemma {:induction false} ItemsOkIff(items: seq<Item>, allKeys: Option<seq<string>>)
    ensures NoErrors(ItemsIssues(items, allKeys)) && !HasHalfItem(items) <==>
      forall it :: it in items ==> ItemOk(it, allKeys)
  {
    if items != [] {
      var before, last := items[..|items| - 1], items[|items| - 1];
      ItemsOkIff(before, allKeys);
      LastItemIff(before, last, allKeys);
      HalfItemLast(items);
    }
  }

  lemma NoErrorsAppend(xs: seq<Issue>, ys: seq<Issue>)
    ensures NoErrors(xs + ys) <==> NoErrors(xs) && NoErrors(ys)
  {
    assert forall x :: x in xs ==> x in xs + ys;
    assert forall y :: y in ys ==> y in xs + ys;
  }

  lemma WhenErrors(c: bool, code: Code, level: Level)
    ensures NoErrors(When(c, code, level)) <==> !(c && level == Error)
  {
    if c && level == Error { assert Issue(code, level) in When(c, code, level); }
  }

  lemma OneItemIff(seen: seq<Item>, it: Item, allKeys: Option<seq<string>>)
    ensures NoErrors(ItemIssues(seen, it, allKeys)) && !HalfItem(it) <==> ItemOk(it, allKeys)
  {
    if FullItem(it) {
      var bad := When(BadItemPath(it.path), ItemPathInvalid, Error);
      var dup := When(exists q :: q in seen && FullItem(q) && q.path == it.path, ItemPathDuplicate, Warn);
      var gone := When(allKeys.Some? && it.key !in allKeys.value, ItemKeyMissing, Error);
      NoErrorsAppend(bad + dup, gone);
      NoErrorsAppend(bad, dup);
      WhenErrors(BadItemPath(it.path), ItemPathInvalid, Error);
      WhenErrors(exists q :: q in seen && FullItem(q) && q.path == it.path, ItemPathDuplicate, Warn);
      WhenErrors(allKeys.Some? && it.key !in allKeys.value, ItemKeyMissing, Error);
    }
  }

  lemma MountPathIff(p: string)
    ensures NoErrors(MountPathIssues(p)) <==> Absolute(p) && !Blocked(Normalize(p))
  {
    var norm := Normalize(p);
    var first := When('\\' in p, MountPathBackslash, Warn);
    WhenErrors('\\' in p, MountPathBackslash, Warn);
    if Absolute(p) {
      var a, b := When(norm != p, MountPathNormalized, Hint), When(norm == "/", MountPathRoot, Error);
      var c := if norm in RUNTIME_PATHS then [Issue(SystemPathRuntime, Error)]
        else if norm in ETC_PATHS then [Issue(SystemPathEtc, Error)]
        else if IsSaToken(norm) then [Issue(SystemPathSaToken, Error)]
        else When(norm in SHADOW_PATHS, SystemPathShadow, Warn);
      assert MountPathIssues(p) == first + (a + b + c);
      NoErrorsAppend(first, a + b + c);
      NoErrorsAppend(a + b, c);
      NoErrorsAppend(a, b);
      WhenErrors(norm != p, MountPathNormalized, Hint);
      WhenErrors(norm == "/", MountPathRoot, Error);
      WhenErrors(norm in SHADOW_PATHS, SystemPathShadow, Warn);
      assert norm in RUNTIME_PATHS || norm in ETC_PATHS || IsSaToken(norm) ==> c[0].level == Error;
    } else {
      assert MountPathIssues(p) == first + [Issue(MountPathRequired, Error)];
      assert Issue(MountPathRequired, Error) in MountPathIssues(p);
    }
  }

  lemma SubPathIff(p: string)
    ensures NoErrors(SubPathIssues(p)) <==> p == "" || !BadSubPath(p)
  {
    assert BadSubPath(p) && p != "" ==> SubPathIssues(p)[0].level == Error;
  }

  lemma NfsIff(e: Row)
    ensures NoErrors(NfsIssues(e)) <==>
      (e.volume.kind.Nfs? && e.volume.nfsPath != "" && e.volume.server != "" ==> Absolute(e.volume.nfsPath))
  {
    WhenErrors(!Absolute(e.volume.nfsPath), NfsPathInvalid, Error);
  }

  lemma ModeIff(e: Row)
    ensures NoErrors(ModeIssues(e)) <==> !BadMode(e)
  {
    assert BadMode(e) ==> ModeIssues(e)[0].level == Error;
  }

  /** A row draws no error exactly when it is in order. */
  lemma EntryOkIff(e: Row, ctx: Ctx)
    ensures NoErrors(EntryIssues(e, ctx)) <==> EntryOk(e, ctx)
  {
    var allKeys := AllKeys(e, ctx);
    var items := e.volume.items;
    MountPathIff(e.mountPath);
    ItemsOkIff(items, allKeys);
    SubPathIff(e.subPath);
    NfsIff(e);
    ModeIff(e);
    WhenErrors(LacksSource(e), SourceRequired, Error);
    WhenErrors(BadTarget(e, ctx), TargetInvalid, Error);
    WhenErrors(HasHalfItem(items), ItemsIncomplete, Error);
    WhenErrors(HidesRest(e, allKeys), ItemsHideRest, Hint);
    WhenErrors(SourceMissing(e, ctx), SourceNotFound, Error);
    WhenErrors(SensitiveHostPath(e), HostPathSensitive, Error);
    WhenErrors(IsProjection(e) && !e.readOnly, ReadOnlySuggested, Hint);
    WhenErrors(SubPathAbsent(e, allKeys), SubPathNotInVolume, Warn);
    AllParts(When(LacksSource(e), SourceRequired, Error), MountPathIssues(e.mountPath),
      When(BadTarget(e, ctx), TargetInvalid, Error),
      ItemsIssues(items, allKeys), When(HasHalfItem(items), ItemsIncomplete, Error),
        When(HidesRest(e, allKeys), ItemsHideRest, Hint),
      When(SourceMissing(e, ctx), SourceNotFound, Error), SubPathIssues(e.subPath), NfsIssues(e),
      When(SensitiveHostPath(e), HostPathSensitive, Error),
        When(IsProjection(e) && !e.readOnly, ReadOnlySuggested, Hint),
      ModeIssues(e), When(SubPathAbsent(e, allKeys), SubPathNotInVolume, Warn));
  }

  lemma AllParts(a: seq<Issue>, b: seq<Issue>, c: seq<Issue>, d: seq<Issue>, e: seq<Issue>, f: seq<Issue>,
      g: seq<Issue>, h: seq<Issue>, i: seq<Issue>, j: seq<Issue>, k: seq<Issue>, l: seq<Issue>, m: seq<Issue>)
    ensures NoErrors(a + b + c + d + e + f + g + h + i + j + k + l + m) <==>
      && NoErrors(a) && NoErrors(b) && NoErrors(c) && NoErrors(d) && NoErrors(e) && NoErrors(f) && NoErrors(g)
      && NoErrors(h) && NoErrors(i) && NoErrors(j) && NoErrors(k) && NoErrors(l) && NoErrors(m)
  {
    SixParts(a, b, c, d, e, f);
    var x := a + b + c + d + e + f;
    SixParts(x, g, h, i, j, k);
    NoErrorsAppend(x + g + h + i + j + k, l);
    NoErrorsAppend(x + g + h + i + j + k + l, m);
  }

  lemma SixParts(a: seq<Issue>, b: seq<Issue>, c: seq<Issue>, d: seq<Issue>, e: seq<Issue>, f: seq<Issue>)
    ensures NoErrors(a + b + c + d + e + f) <==>
      NoErrors(a) && NoErrors(b) && NoErrors(c) && NoErrors(d) && NoErrors(e) && NoErrors(f)
  {
    NoErrorsAppend(a, b);
    NoErrorsAppend(a + b, c);
    NoErrorsAppend(a + b + c, d);
    NoErrorsAppend(a + b + c + d, e);
    NoErrorsAppend(a + b + c + d + e, f);
  }

  // ------------------------------------------------------------ rules across rows

  /** A problem of several rows, given to each of them. */
  datatype Cross = Cross(issue: Issue, rows: seq<nat>)

  function PathOf(e: Row): Option<string> { if Absolute(e.mountPath) then Some(Normalize(e.mountPath)) else None }

  /** The rows of each target that have a path, by first appearance of the target. */
  type ByTarget = Entries<string, seq<(nat, string)>>

  function Grouped(path: Row -> Option<string>, list: seq<Row>): ByTarget {
    if list == [] then []
    else Regroup(Grouped(path, list[..|list| - 1]), |list| - 1, list[|list| - 1].target, path(list[|list| - 1]))
  }

  function Regroup(byTarget: ByTarget, i: nat, target: string, p: Option<string>): ByTarget {
    if p.None? then byTarget else Put(byTarget, target, Get(byTarget, target).GetOr([]) + [(i, p.value)])
  }

  predicate Nested(p: string, q: string) { p != "/" && q != "/" && (p + "/" <= q || q + "/" <= p) }

  function PairIssue(x: (nat, string), y: (nat, string)): seq<Cross> {
    if x.1 == y.1 then [Cross(Issue(MountPathDuplicate, Error), [x.0, y.0])]
    else if Nested(x.1, y.1) then [Cross(Issue(MountPathNested, Warn), [x.0, y.0])]
    else []
  }

  function Against(x: (nat, string)): ((nat, string)) -> seq<Cross> { y => PairIssue(x, y) }

  /** One row against every later row of its group, and so on down the group. */
  function GroupCross(g: seq<(nat, string)>): seq<Cross> {
    if g == [] then [] else FlatMap(Against(g[0]), g[1..]) + GroupCross(g[1..])
  }

  function NameCross(list: seq<Row>): seq<Cross> {
    if list == [] then []
    else
      var n := |list| - 1;
      var before, e := list[..n], list[n];
      NameCross(before) + NameClash(e.name, FirstNamed(before, e.name), n)
  }

  /** The first row of that name. */
  function FirstNamed(list: seq<Row>, name: string): Option<nat> { Get<string, nat>(FirstNames(list), name) }

  /** The report on row n, if an earlier row has its name. */
  function NameClash(name: string, first: Option<nat>, n: nat): seq<Cross> {
    if name != "" && first.Some? then [Cross(Issue(VolumeNameDuplicate, Error), [first.value, n])] else []
  }

  /** Where each name first appears. */
  function FirstNames(list: seq<Row>): Entries<string, nat> {
    if list == [] then []
    else
      var n := |list| - 1;
      var before, e := FirstNames(list[..n]), list[n];
      if e.name == "" || e.name in Keys(before) then before else Put(before, e.name, n)
  }

  predicate Orphan(e: Row, issues: seq<Issue>) {
    PathOf(e).Some? && LacksSource(e) && forall x :: x in issues ==> x.code != SourceRequired
  }

  function OrphanOf(i: nat, e: Row, issues: seq<Issue>): seq<Cross> {
    if Orphan(e, issues) then [Cross(Issue(OrphanMount, Error), [i])] else []
  }

  function OrphanCross(list: seq<Row>, ctx: Ctx): seq<Cross> {
    if list == [] then []
    else
      var n := |list| - 1;
      OrphanCross(list[..n], ctx) + OrphanOf(n, list[n], EntryIssues(list[n], ctx))
  }

  function AllCross(list: seq<Row>, ctx: Ctx): seq<Cross> {
    FlatMap(GroupCross, Values(Grouped(PathOf, list))) + NameCross(list) + OrphanCross(list, ctx)
  }

  /** byEntry[i].push(c) for each c and each row i of c. */
  function Push(byEntry: seq<seq<Issue>>, rows: seq<nat>, x: Issue): seq<seq<Issue>> {
    if rows == [] then byEntry
    else
      var before, i := Push(byEntry, rows[..|rows| - 1], x), rows[|rows| - 1];
      if i < |before| then before[i := before[i] + [x]] else before
  }

  function Delivered(byEntry: seq<seq<Issue>>, cross: seq<Cross>): seq<seq<Issue>> {
    if cross == [] then byEntry
    else Push(Delivered(byEntry, cross[..|cross| - 1]), cross[|cross| - 1].rows, cross[|cross| - 1].issue)
  }

  function RowIssues(ctx: Ctx): Row -> seq<Issue> { (e: Row) => EntryIssues(e, ctx) }

  function Audit(list: seq<Row>, ctx: Ctx): seq<seq<Issue>> {
    Delivered(Map(RowIssues(ctx), list), AllCross(list, ctx))
  }

  lemma GroupCrossNext(cross: seq<Cross>, g: seq<(nat, string)>, a: nat)
    requires a < |g|
    ensures cross + FlatMap(Against(g[a]), g[a + 1..]) + GroupCross(g[a + 1..]) == cross + GroupCross(g[a..])
  {
    assert g[a..][0] == g[a] && g[a..][1..] == g[a + 1..];
  }

  method CrossGroup(g: seq<(nat, string)>) returns (cross: seq<Cross>)
    ensures cross == GroupCross(g)
  {
    cross := [];
    assert g[0..] == g;
    for a := 0 to |g|
      invariant cross + GroupCross(g[a..]) == GroupCross(g)
    {
      GroupCrossNext(cross, g, a);
      var pairs := PushAll(Against(g[a]), g[a + 1..]);
      cross := cross + pairs;
    }
    assert GroupCross(g[|g|..]) == [];
  }

  method GroupRowsByTarget(path: Row -> Option<string>, list: seq<Row>) returns (byTarget: ByTarget)
    ensures byTarget == Grouped(path, list)
  {
    byTarget := [];
    for i := 0 to |list|
      invariant byTarget == Grouped(path, list[..i])
    {
      assert list[..i + 1][..i] == list[..i];
      byTarget := Regroup(byTarget, i, list[i].target, path(list[i]));
    }
    assert list[..|list|] == list;
  }

  lemma NamesNext(list: seq<Row>, i: nat)
    requires i < |list|
    ensures
      var before, name := FirstNames(list[..i]), list[i].name;
      && NameCross(list[..i + 1]) == NameCross(list[..i]) + NameClash(name, FirstNamed(list[..i], name), i)
      && FirstNames(list[..i + 1]) == if name == "" || name in Keys(before) then before else Put(before, name, i)
  {
    assert list[..i + 1][..i] == list[..i];
  }

  /** One name against those before it. */
  method CrossName(byName: Entries<string, nat>, name: string, i: nat)
    returns (clash: seq<Cross>, byName': Entries<string, nat>)
    ensures clash == NameClash(name, Get<string, nat>(byName, name), i)
    ensures byName' == if name == "" || name in Keys(byName) then byName else Put(byName, name, i)
  {
    clash, byName' := [], byName;
    if name == "" { return; }
    var first := Get<string, nat>(byName, name);
    if first.Some? {
      clash := [Cross(Issue(VolumeNameDuplicate, Error), [first.value, i])];
    } else {
      byName' := Put(byName, name, i);
    }
  }

  method CrossNames(list: seq<Row>) returns (cross: seq<Cross>)
    ensures cross == NameCross(list)
  {
    cross := [];
    var byName: Entries<string, nat> := [];
    for i := 0 to |list|
      invariant cross == NameCross(list[..i]) && byName == FirstNames(list[..i])
    {
      NamesNext(list, i);
      var clash;
      clash, byName := CrossName(byName, list[i].name, i);
      cross := cross + clash;
    }
    assert list[..|list|] == list;
  }

  method CrossOrphans(list: seq<Row>, ctx: Ctx) returns (cross: seq<Cross>)
    ensures cross == OrphanCross(list, ctx)
  {
    cross := [];
    for i := 0 to |list|
      invariant cross == OrphanCross(list[..i], ctx)
    {
      assert list[..i + 1][..i] == list[..i];
      var own := ValidateEntry(list[i], ctx);
      cross := cross + OrphanOf(i, list[i], own);
    }
    assert list[..|list|] == list;
  }

  method Deliver(byEntry: seq<seq<Issue>>, cross: seq<Cross>) returns (out: seq<seq<Issue>>)
    requires InRange(cross, |byEntry|)
    ensures out == Delivered(byEntry, cross) && |out| == |byEntry|
  {
    out := byEntry;
    for n := 0 to |cross|
      invariant out == Delivered(byEntry, cross[..n]) && |out| == |byEntry|
    {
      assert cross[..n + 1][..n] == cross[..n];
      var c := cross[n];
      ghost var before := out;
      for k := 0 to |c.rows|
        invariant out == Push(before, c.rows[..k], c.issue) && |out| == |byEntry|
      {
        assert c.rows[..k + 1][..k] == c.rows[..k];
        out := out[c.rows[k] := out[c.rows[k]] + [c.issue]];
      }
      assert c.rows[..|c.rows|] == c.rows;
    }
    assert cross[..|cross|] == cross;
  }

  method CheckRows(list: seq<Row>, ctx: Ctx) returns (byEntry: seq<seq<Issue>>)
    ensures byEntry == Map(RowIssues(ctx), list)
  {
    byEntry := [];
    for i := 0 to |list|
      invariant byEntry == Map(RowIssues(ctx), list[..i])
    {
      var own := ValidateEntry(list[i], ctx);
      byEntry := byEntry + [own];
    }
    assert list[..|list|] == list;
  }

  method CrossGroups(groups: seq<seq<(nat, string)>>) returns (cross: seq<Cross>)
    ensures cross == FlatMap(GroupCross, groups)
  {
    cross := [];
    for k := 0 to |groups|
      invariant cross == FlatMap(GroupCross, groups[..k])
    {
      FlatMapNext(GroupCross, groups, k);
      var own := CrossGroup(groups[k]);
      cross := cross + own;
    }
    assert groups[..|groups|] == groups;
  }

  method ValidateVolumeMounts(list: seq<Row>, ctx: Ctx) returns (byEntry: seq<seq<Issue>>, cross: seq<Cross>)
    ensures byEntry == Audit(list, ctx) && cross == AllCross(list, ctx)
  {
    byEntry := CheckRows(list, ctx);
    var byTarget := GroupRowsByTarget(PathOf, list);
    cross := CrossGroups(Values(byTarget));
    var names := CrossNames(list);
    var orphans := CrossOrphans(list, ctx);
    cross := cross + names + orphans;
    CrossInRange(list, ctx);
    byEntry := Deliver(byEntry, cross);
  }

  /** The first error in row order, with its row. */
  method FirstError(byEntry: seq<seq<Issue>>) returns (r: Option<(nat, Issue)>)
    ensures r.None? <==> Clean(byEntry)
    ensures r.Some? ==>
      var (i, x) := r.value;
      i < |byEntry| && x in byEntry[i] && x.level == Error && Clean(byEntry[..i])
  {
    for i := 0 to |byEntry|
      invariant Clean(byEntry[..i])
    {
      for k := 0 to |byEntry[i]|
        invariant NoErrors(byEntry[i][..k])
      {
        if byEntry[i][k].level == Error {
          assert byEntry[i][k] in byEntry[i];
          return Some((i, byEntry[i][k]));
        }
      }
      assert byEntry[i][..|byEntry[i]|] == byEntry[i];
    }
    assert byEntry[..|byEntry|] == byEntry;
    r := None;
  }

  predicate Clean(byEntry: seq<seq<Issue>>) { forall i :: 0 <= i < |byEntry| ==> NoErrors(byEntry[i]) }

  // ------------------------------------------------------------ when the gate opens

  predicate Calm(cross: seq<Cross>) { forall c :: c in cross ==> c.issue.level != Error }

  ghost predicate InRange(cross: seq<Cross>, n: nat) {
    forall c :: c in cross ==> c.rows != [] && forall k :: 0 <= k < |c.rows| ==> c.rows[k] < n
  }

  lemma {:induction false} PushIff(byEntry: seq<seq<Issue>>, rows: seq<nat>, x: Issue)
    requires forall k :: 0 <= k < |rows| ==> rows[k] < |byEntry|
    ensures |Push(byEntry, rows, x)| == |byEntry|
    ensures Clean(Push(byEntry, rows, x)) <==> Clean(byEntry) && (rows == [] || x.level != Error)
  {
    if rows != [] {
      var before, i := Push(byEntry, rows[..|rows| - 1], x), rows[|rows| - 1];
      PushIff(byEntry, rows[..|rows| - 1], x);
      PushOneIff(before, i, x);
    }
  }

  lemma PushOneIff(byEntry: seq<seq<Issue>>, i: nat, x: Issue)
    requires i < |byEntry|
    ensures Clean(byEntry[i := byEntry[i] + [x]]) <==> Clean(byEntry) && x.level != Error
  {
    var after := byEntry[i := byEntry[i] + [x]];
    NoErrorsAppend(byEntry[i], [x]);
    assert x in [x];
    assert forall k :: 0 <= k < |byEntry| && k != i ==> after[k] == byEntry[k];
    assert NoErrors(after[i]) <==> NoErrors(byEntry[i]) && x.level != Error;
    if Clean(after) {
      assert forall k :: 0 <= k < |byEntry| ==> NoErrors(after[k]) && NoErrors(byEntry[k]);
    }
  }

  lemma {:induction false} DeliveredIff(byEntry: seq<seq<Issue>>, cross: seq<Cross>)
    requires InRange(cross, |byEntry|)
    ensures |Delivered(byEntry, cross)| == |byEntry|
    ensures Clean(Delivered(byEntry, cross)) <==> Clean(byEntry) && Calm(cross)
  {
    if cross != [] {
      var before, c := cross[..|cross| - 1], cross[|cross| - 1];
      DeliveredIff(byEntry, before);
      PushIff(Delivered(byEntry, before), c.rows, c.issue);
      assert cross == before + [c];
    }
  }

  lemma CalmAppend(xs: seq<Cross>, ys: seq<Cross>)
    ensures Calm(xs + ys) <==> Calm(xs) && Calm(ys)
  {
    assert forall x :: x in xs ==> x in xs + ys;
    assert forall y :: y in ys ==> y in xs + ys;
  }

  /** An orphan mount is never reported: the row's own check has already said that its source is missing. */
  lemma {:induction false} NoOrphans(list: seq<Row>, ctx: Ctx)
    ensures OrphanCross(list, ctx) == []
  {
    if list != [] {
      var n := |list| - 1;
      NoOrphans(list[..n], ctx);
      if LacksSource(list[n]) { SourceReported(list[n], ctx); }
    }
  }

  lemma SourceReported(e: Row, ctx: Ctx)
    requires LacksSource(e)
    ensures Issue(SourceRequired, Error) in EntryIssues(e, ctx)
  {
    assert EntryIssues(e, ctx)[0] == Issue(SourceRequired, Error);
  }

  // ------------------------------------------------------------ clashing paths

  /** The rows of one target that have a path. */
  function PathsAt(path: Row -> Option<string>, list: seq<Row>, t: string): seq<(nat, string)> {
    if list == [] then []
    else
      var n := |list| - 1;
      var p := path(list[n]);
      PathsAt(path, list[..n], t) + if list[n].target == t && p.Some? then [(n, p.value)] else []
  }

  lemma {:induction false} RegroupSpec(m: ByTarget, i: nat, target: string, p: Option<string>, t: string)
    requires Distinct(Keys(m))
    ensures Get(Regroup(m, i, target, p), t).GetOr([]) == Get(m, t).GetOr([]) + if target == t && p.Some?
      then [(i, p.value)] else []
    ensures Distinct(Keys(Regroup(m, i, target, p)))
  {
    if p.Some? {
      var v := Get(m, target).GetOr([]) + [(i, p.value)];
      GetPut(m, target, v, t);
      KeysOfPut(m, target, v);
    }
  }

  lemma {:induction false} GroupedIsPathsAt(path: Row -> Option<string>, list: seq<Row>, t: string)
    ensures Get(Grouped(path, list), t).GetOr([]) == PathsAt(path, list, t)
    ensures Distinct(Keys(Grouped(path, list)))
  {
    if list != [] {
      var n := |list| - 1;
      GroupedIsPathsAt(path, list[..n], t);
      RegroupSpec(Grouped(path, list[..n]), n, list[n].target, path(list[n]), t);
    }
  }

  predicate Increasing(g: seq<(nat, string)>) { forall a, b :: 0 <= a < b < |g| ==> g[a].0 < g[b].0 }

  lemma {:induction false} PathsAtSpec(path: Row -> Option<string>, list: seq<Row>, t: string)
    ensures forall x :: x in PathsAt(path, list, t) <==>
      x.0 < |list| && list[x.0].target == t && path(list[x.0]) == Some(x.1)
    ensures Increasing(PathsAt(path, list, t))
  {
    if list != [] {
      var n := |list| - 1;
      PathsAtSpec(path, list[..n], t);
    }
  }

  ghost predicate Repeats(g: seq<(nat, string)>) { exists a, b :: 0 <= a < b < |g| && g[a].1 == g[b].1 }

  lemma {:induction false} PairsIff(x: (nat, string), ys: seq<(nat, string)>, n: nat)
    requires x.0 < n && forall y :: y in ys ==> y.0 < n
    ensures Calm(FlatMap(Against(x), ys)) <==> forall y :: y in ys ==> y.1 != x.1
    ensures InRange(FlatMap(Against(x), ys), n)
  {
    if ys != [] {
      PairsIff(x, ys[1..], n);
      CalmAppend(PairIssue(x, ys[0]), FlatMap(Against(x), ys[1..]));
    }
  }

  lemma {:induction false} GroupIff(g: seq<(nat, string)>, n: nat)
    requires forall x :: x in g ==> x.0 < n
    ensures Calm(GroupCross(g)) <==> !Repeats(g)
    ensures InRange(GroupCross(g), n)
  {
    if g != [] {
      GroupIff(g[1..], n);
      PairsIff(g[0], g[1..], n);
      CalmAppend(FlatMap(Against(g[0]), g[1..]), GroupCross(g[1..]));
      RepeatsCons(g);
    }
  }

  lemma RepeatsCons(g: seq<(nat, string)>)
    requires g != []
    ensures Repeats(g) <==> Repeats(g[1..]) || exists y :: y in g[1..] && y.1 == g[0].1
  {
    if Repeats(g[1..]) {
      var a, b :| 0 <= a < b < |g| - 1 && g[1..][a].1 == g[1..][b].1;
      assert g[a + 1].1 == g[b + 1].1;
    }
    if y :| y in g[1..] && y.1 == g[0].1 {
      var b :| 0 <= b < |g| - 1 && g[1..][b] == y;
      assert g[0].1 == g[b + 1].1;
    }
    if Repeats(g) {
      var a, b :| 0 <= a < b < |g| && g[a].1 == g[b].1;
      if a > 0 { assert g[1..][a - 1].1 == g[1..][b - 1].1; } else { assert g[1..][b - 1] in g[1..]; }
    }
  }

  lemma {:induction false} GroupsIff(groups: seq<seq<(nat, string)>>, n: nat)
    requires forall g, x :: g in groups && x in g ==> x.0 < n
    ensures Calm(FlatMap(GroupCross, groups)) <==> forall g :: g in groups ==> !Repeats(g)
    ensures InRange(FlatMap(GroupCross, groups), n)
  {
    if groups != [] {
      GroupsIff(groups[1..], n);
      GroupIff(groups[0], n);
      CalmAppend(GroupCross(groups[0]), FlatMap(GroupCross, groups[1..]));
    }
  }

  /** Rows i and j share a target and a path. */
  predicate Clash(path: Row -> Option<string>, list: seq<Row>, i: nat, j: nat)
    requires i < |list| && j < |list|
  {
    list[i].target == list[j].target && path(list[i]).Some? && path(list[i]) == path(list[j])
  }

  /** No two rows of one target have the same path. */
  predicate PathsApart(path: Row -> Option<string>, list: seq<Row>) {
    forall i, j :: 0 <= i < j < |list| ==> !Clash(path, list, i, j)
  }

  lemma {:induction false} RepeatsClash(path: Row -> Option<string>, list: seq<Row>, t: string)
    requires PathsApart(path, list)
    ensures !Repeats(PathsAt(path, list, t))
  {
    PathsAtSpec(path, list, t);
    var g := PathsAt(path, list, t);
    forall a, b | 0 <= a < b < |g| ensures g[a].1 != g[b].1 {
      assert g[a] in g && g[b] in g;
      assert !Clash(path, list, g[a].0, g[b].0);
    }
  }

  lemma {:induction false} ClashRepeats(path: Row -> Option<string>, list: seq<Row>, i: nat, j: nat)
    requires i < j < |list| && Clash(path, list, i, j)
    ensures Repeats(PathsAt(path, list, list[i].target))
  {
    var p := path(list[i]).value;
    var g := PathsAt(path, list, list[i].target);
    PathsAtSpec(path, list, list[i].target);
    assert (i, p) in g && (j, p) in g;
    var a :| 0 <= a < |g| && g[a] == (i, p);
    var b :| 0 <= b < |g| && g[b] == (j, p);
    assert !(b < a) && b != a;
    assert g[a].1 == g[b].1;
  }

  /** The errors among the groups are exactly the clashes among the rows. */
  lemma {:induction false} GroupedIff(path: Row -> Option<string>, list: seq<Row>)
    ensures Calm(FlatMap(GroupCross, Values(Grouped(path, list)))) <==> PathsApart(path, list)
    ensures InRange(FlatMap(GroupCross, Values(Grouped(path, list))), |list|)
  {
    var m := Grouped(path, list);
    forall g | g in Values(m) ensures exists t :: g == PathsAt(path, list, t) {
      var k :| 0 <= k < |m| && Values(m)[k] == g;
      GroupedIsPathsAt(path, list, m[k].0);
      GetOfEntry(m, k);
    }
    forall t ensures PathsAt(path, list, t) == [] || PathsAt(path, list, t) in Values(m) {
      GroupedIsPathsAt(path, list, t);
      if Get(m, t).Some? {
        var k :| 0 <= k < |m| && m[k] == (t, Get(m, t).value);
        assert Values(m)[k] == PathsAt(path, list, t);
      }
    }
    forall t ensures forall x :: x in PathsAt(path, list, t) ==> x.0 < |list| { PathsAtSpec(path, list, t); }
    GroupsIff(Values(m), |list|);
    if PathsApart(path, list) {
      forall t ensures !Repeats(PathsAt(path, list, t)) { RepeatsClash(path, list, t); }
    } else {
      var i, j :| 0 <= i < j < |list| && Clash(path, list, i, j);
      ClashRepeats(path, list, i, j);
      assert PathsAt(path, list, list[i].target) in Values(m);
    }
  }

  // ------------------------------------------------------------ repeated names

  function Names(list: seq<Row>): seq<string> { Map((e: Row) => e.name, list) }

  predicate NamesApart(list: seq<Row>) {
    forall i, j :: 0 <= i < j < |list| && list[i].name != "" ==> list[i].name != list[j].name
  }

  lemma NamesLast(list: seq<Row>)
    requires list != []
    ensures Names(list) == Names(list[..|list| - 1]) + [list[|list| - 1].name]
    ensures NamesApart(list) <==>
      NamesApart(list[..|list| - 1]) && (list[|list| - 1].name == "" ||
        list[|list| - 1].name !in Names(list[..|list| - 1]))
  {
    var before, name := list[..|list| - 1], list[|list| - 1].name;
    if NamesApart(list) && name in Names(before) {
      var i :| 0 <= i < |before| && Names(before)[i] == name;
      assert list[i].name == list[|list| - 1].name;
    }
    assert forall i :: 0 <= i < |before| ==> Names(before)[i] == list[i].name && list[i].name in Names(before);
  }

  lemma {:induction false} FirstNamesSpec(list: seq<Row>)
    ensures forall k :: k in Keys(FirstNames(list)) <==> k != "" && k in Names(list)
    ensures forall e :: e in FirstNames(list) ==> e.1 < |list|
  {
    if list != [] {
      var n := |list| - 1;
      var before, e := FirstNames(list[..n]), list[n];
      FirstNamesSpec(list[..n]);
      NamesLast(list);
      PutEntries(before, e.name, n);
      KeysOfPut(before, e.name, n);
    }
  }

  lemma FirstNameSeen(list: seq<Row>, name: string)
    ensures name != "" ==> (FirstNamed(list, name).Some? <==> name in Names(list))
    ensures FirstNamed(list, name).Some? ==> FirstNamed(list, name).value < |list|
  {
    FirstNamesSpec(list);
    var first := FirstNamed(list, name);
    if first.Some? { assert (name, first.value) in FirstNames(list); }
  }

  lemma NameClashIff(before: seq<Row>, name: string)
    ensures
      var clash := NameClash(name, FirstNamed(before, name), |before|);
      && (Calm(clash) <==> name == "" || name !in Names(before))
      && InRange(clash, |before| + 1)
  {
    FirstNameSeen(before, name);
    var clash := NameClash(name, FirstNamed(before, name), |before|);
    if clash != [] { assert clash[0].issue.level == Error; }
  }

  lemma CrossAppend(xs: seq<Cross>, ys: seq<Cross>, n: nat)
    requires InRange(xs, n) && InRange(ys, n + 1)
    ensures InRange(xs + ys, n + 1) && (Calm(xs + ys) <==> Calm(xs) && Calm(ys))
  {
    CalmAppend(xs, ys);
  }

  lemma {:induction false} NamesIff(list: seq<Row>)
    ensures Calm(NameCross(list)) <==> NamesApart(list)
    ensures InRange(NameCross(list), |list|)
  {
    if list != [] {
      var before, name := list[..|list| - 1], list[|list| - 1].name;
      NamesIff(before);
      NameClashIff(before, name);
      NamesLast(list);
      CrossAppend(NameCross(before), NameClash(name, FirstNamed(before, name), |before|), |before|);
    }
  }

  lemma CrossInRange(list: seq<Row>, ctx: Ctx)
    ensures InRange(AllCross(list, ctx), |list|)
    ensures Calm(AllCross(list, ctx)) <==> PathsApart(PathOf, list) && NamesApart(list)
  {
    var groups := FlatMap(GroupCross, Values(Grouped(PathOf, list)));
    GroupedIff(PathOf, list);
    NamesIff(list);
    NoOrphans(list, ctx);
    CalmAppend(groups, NameCross(list));
    assert AllCross(list, ctx) == groups + NameCross(list);
  }

  /**
   The gate reports no error exactly when every row is in order, no two rows of one container have
   the same normalised path, and no two rows have the same name.
   */
  lemma GateOpensIff(list: seq<Row>, ctx: Ctx)
    ensures Clean(Audit(list, ctx)) <==>
      (forall e :: e in list ==> EntryOk(e, ctx)) && PathsApart(PathOf, list) && NamesApart(list)
  {
    CrossInRange(list, ctx);
    DeliveredIff(Map(RowIssues(ctx), list), AllCross(list, ctx));
    EntriesOkIff(list, ctx);
  }

  lemma EntriesOkIff(list: seq<Row>, ctx: Ctx)
    ensures Clean(Map(RowIssues(ctx), list)) <==> forall e :: e in list ==> EntryOk(e, ctx)
  {
    var ok := (e: Row) => EntryOk(e, ctx);
    forall i | 0 <= i < |list| ensures NoErrors(Map(RowIssues(ctx), list)[i]) <==> ok(list[i]) {
      EntryOkIff(list[i], ctx);
    }
    RowsOkIff(list, Map(RowIssues(ctx), list), ok);
  }

  lemma RowsOkIff(list: seq<Row>, issues: seq<seq<Issue>>, ok: Row -> bool)
    requires |issues| == |list| && forall i :: 0 <= i < |list| ==> (NoErrors(issues[i]) <==> ok(list[i]))
    ensures Clean(issues) <==> forall e :: e in list ==> ok(e)
  {
    assert forall i :: 0 <= i < |list| ==> list[i] in list;
  }

  // ------------------------------------------------------------ what an open gate guarantees

  function NormalPath(m: Mount): string { Normalize(m.mountPath) }

  function NormalPathOf(e: Row): string { Normalize(e.mountPath) }

  /** Behind an open gate every mount written is absolute and off the blocked paths, and no target has a path twice. */
  lemma PathsAreSafe(list: seq<Row>, ctx: Ctx, t: string)
    requires Clean(Audit(list, ctx))
    ensures forall m :: m in MountsOf(list, t) ==> Absolute(m.mountPath) && !Blocked(Normalize(m.mountPath))
    ensures Distinct(Map(NormalPath, MountsOf(list, t)))
  {
    GateOpensIff(list, ctx);
    assert forall e :: e in list ==> PathOf(e) == Some(NormalPathOf(e));
    MountsFromRows(list, t);
    TargetMounts(PathOf, NormalPathOf, NormalPath, list, t);
  }

  lemma MountsAppend(rows: seq<Row>, r: Row, t: string)
    ensures MountsOf(rows + [r], t) == MountsOf(rows, t) + if r.target == t then MountOf(r) else []
  {
    FilterAppend(At(t), rows, [r]);
    FilterOne(At(t), r);
    FlatMapAppend(MountOf, OfTarget(rows, t), OfTarget([r], t));
    assert [r][1..] == [];
  }

  ghost predicate FromRow(rows: seq<Row>, t: string, m: Mount) {
    exists e :: e in rows && e.target == t && e.mountPath == m.mountPath
  }

  lemma {:induction false} MountsFromRows(list: seq<Row>, t: string)
    ensures forall m :: m in MountsOf(list, t) ==> FromRow(list, t, m)
  {
    if list != [] {
      var before, e := list[..|list| - 1], list[|list| - 1];
      assert list == before + [e];
      MountsFromRows(before, t);
      MountsAppend(before, e, t);
      forall m | m in MountsOf(list, t) ensures FromRow(list, t, m) {
        if m in MountsOf(before, t) {
          var q :| q in before && q.target == t && q.mountPath == m.mountPath;
          assert q in list;
        } else {
          assert e in list && e.target == t && e.mountPath == m.mountPath;
        }
      }
    }
  }

  /** No mount of the rows before the last is at the last one's place. */
  lemma LastIsApart(path: Row -> Option<string>, at: Row -> string, place: Mount -> string, list: seq<Row>, t: string)
    requires list != [] && PathsApart(path, list) && forall e :: e in list ==> path(e) == Some(at(e))
    requires forall e: Row, m: Mount :: e.mountPath == m.mountPath ==> at(e) == place(m)
    requires list[|list| - 1].target == t
    ensures forall q :: q in MountsOf(list[..|list| - 1], t) ==> place(q) != at(list[|list| - 1])
  {
    var n := |list| - 1;
    MountsFromRows(list[..n], t);
    forall q | q in MountsOf(list[..n], t) ensures place(q) != at(list[n]) {
      var r :| r in list[..n] && r.target == t && r.mountPath == q.mountPath;
      var i :| 0 <= i < n && list[i] == r;
      assert !Clash(path, list, i, n);
      assert r in list && list[n] in list;
    }
  }

  lemma PathsApartBefore(path: Row -> Option<string>, list: seq<Row>)
    requires list != [] && PathsApart(path, list)
    ensures PathsApart(path, list[..|list| - 1])
  {
    var before := list[..|list| - 1];
    forall i, j | 0 <= i < j < |before| ensures !Clash(path, before, i, j) { assert !Clash(path, list, i, j); }
  }

  /** Rows that are apart give mounts that are apart. */
  lemma {:induction false} TargetMounts(path: Row -> Option<string>, at: Row -> string, place: Mount -> string,
      list: seq<Row>, t: string)
    requires PathsApart(path, list) && forall e :: e in list ==> path(e) == Some(at(e))
    requires forall e: Row, m: Mount :: e.mountPath == m.mountPath ==> at(e) == place(m)
    ensures Distinct(Map(place, MountsOf(list, t)))
  {
    if list != [] {
      var before, e := list[..|list| - 1], list[|list| - 1];
      PathsApartBefore(path, list);
      TargetMounts(path, at, place, before, t);
      MountsAppend(before, e, t);
      assert list == before + [e];
      if e.target == t && MountOf(e) != [] {
        LastIsApart(path, at, place, list, t);
        OneMore(place, MountsOf(before, t), MountOf(e)[0], at(e));
      }
    }
  }

  lemma OneMore(place: Mount -> string, ms: seq<Mount>, m: Mount, p: string)
    requires Distinct(Map(place, ms)) && place(m) == p && forall q :: q in ms ==> place(q) != p
    ensures Distinct(Map(place, ms + [m]))
  {
    assert Map(place, ms + [m]) == Map(place, ms) + [p];
    DistinctAppend(Map(place, ms), p);
  }

  // ------------------------------------------------------------ mounts and volumes fit together

  predicate IsNamed(e: Row) { e.name != "" }

  function OwnIfNamed(e: Row): seq<Row> { if e.name != "" then [e] else [] }

  lemma {:induction false} FirstRowsLast(before: seq<Row>, e: Row)
    requires e.name != "" ==> e.name !in Keys(FirstRows(before))
    ensures Values(FirstRows(before + [e])) == Values(FirstRows(before)) + OwnIfNamed(e)
  {
    assert (before + [e])[..|before|] == before;
    var m := FirstRows(before);
    assert Values(m + [(e.name, e)]) == Values(m) + [e];
  }

  lemma {:induction false} FilterLast(before: seq<Row>, e: Row)
    ensures Filter(IsNamed, before + [e]) == Filter(IsNamed, before) + OwnIfNamed(e)
  {
    FilterAppend(IsNamed, before, [e]);
    FilterOne(IsNamed, e);
  }

  /** A last row whose name, if it has one, is new. */
  lemma NamedRowsNext(before: seq<Row>, e: Row)
    requires Values(FirstRows(before)) == Filter(IsNamed, before)
    requires e.name != "" ==> e.name !in Names(before)
    ensures Values(FirstRows(before + [e])) == Filter(IsNamed, before + [e])
  {
    KeysAreNames(before);
    FirstRowsLast(before, e);
    FilterLast(before, e);
  }

  /** With no name repeated, no row is dropped as a duplicate. */
  lemma {:induction false} NamedRowsKept(list: seq<Row>)
    requires NamesApart(list)
    ensures Values(FirstRows(list)) == Filter(IsNamed, list)
  {
    if list != [] {
      NamesLast(list);
      NamedRowsKept(list[..|list| - 1]);
      NamedRowsNext(list[..|list| - 1], list[|list| - 1]);
      assert list == list[..|list| - 1] + [list[|list| - 1]];
    }
  }

  lemma {:induction false} KeysAreNames(list: seq<Row>)
    ensures forall k :: k in Keys(FirstRows(list)) ==> k in Names(list)
  {
    FirstRowsSpec(list);
    forall k | k in Keys(FirstRows(list)) ensures k in Names(list) {
      var i :| 0 <= i < |FirstRows(list)| && Keys(FirstRows(list))[i] == k;
      var e := FirstRows(list)[i];
      assert e in FirstRows(list);
      var j :| 0 <= j < |list| && list[j] == e.1;
      assert Names(list)[j] == k;
    }
  }

  /** A row of a kind the form does not know carries the volume it was read from. */
  predicate OwnRaw(e: Row) { e.volume.kind.Unknown? ==> e.volume.raw.Some? && e.volume.raw.value.name == e.name }

  /** The row writes a volume, and under the row's own name. */
  predicate Writes(e: Row) { ToVolumeDef(e).Some? && ToVolumeDef(e).value.name == e.name }

  lemma RowWritesIff(e: Row, ctx: Ctx)
    requires EntryOk(e, ctx) && e.name != ""
    ensures OwnRaw(e) <==> Writes(e)
    ensures !e.volume.kind.Unknown? ==> Writes(e)
  {
  }

  lemma RowMounts(list: seq<Row>, e: Row)
    requires e in list && ToMountSpec(e).Some?
    ensures ToMountSpec(e).value in MountsOf(list, e.target)
  {
    assert e in OfTarget(list, e.target);
    FlatMapIn(MountOf, OfTarget(list, e.target), e);
  }

  lemma OpenGateWrites(list: seq<Row>, ctx: Ctx)
    requires Clean(Audit(list, ctx))
    ensures NamesApart(list)
    ensures forall e :: e in list ==>
      e.mountPath != "" && (e.name != "" ==> (OwnRaw(e) <==> Writes(e)) && (!e.volume.kind.Unknown? ==> Writes(e)))
  {
    GateOpensIff(list, ctx);
    forall e | e in list && e.name != "" ensures (OwnRaw(e) <==> Writes(e)) && (!e.volume.kind.Unknown? ==> Writes(e)) {
      RowWritesIff(e, ctx);
    }
  }

  /** A row of unknown kind whose raw volume has that name. */
  predicate Carries(q: Row, name: string) {
    q.volume.kind.Unknown? && q.volume.raw.Some? && q.volume.raw.value.name == name
  }

  /** Which named rows write a volume of a given name: those of a known kind their own, the others what they carry. */
  lemma WritesNameIff(q: Row, ctx: Ctx, name: string)
    requires EntryOk(q, ctx) && q.name != ""
    ensures ToVolumeDef(q).Some? && ToVolumeDef(q).value.name == name <==>
      Carries(q, name) || (!q.volume.kind.Unknown? && q.name == name)
  {
  }

  lemma SomeVolumeIff(list: seq<Row>, name: string)
    requires NamesApart(list)
    ensures (exists v :: v in VolumesOf(list) && v.name == name) <==>
      exists q :: q in list && q.name != "" && ToVolumeDef(q).Some? && ToVolumeDef(q).value.name == name
  {
    NamedRowsKept(list);
    if v :| v in VolumesOf(list) && v.name == name { InVolumes(Filter(IsNamed, list), v); }
    if q :| q in list && q.name != "" && ToVolumeDef(q).Some? && ToVolumeDef(q).value.name == name {
      InVolumes(Filter(IsNamed, list), ToVolumeDef(q).value);
    }
  }

  /**
   Behind an open gate a named row's mount is written, and a volume of its name is written with it
   exactly when the row is of a known kind, or some named row of unknown kind carries a raw volume of
   that name: the gate itself asks for neither.
   */
  lemma MountHasVolumeIff(list: seq<Row>, ctx: Ctx, e: Row)
    requires Clean(Audit(list, ctx)) && e in list && e.name != ""
    ensures Mount(e.name, e.mountPath, e.subPath, e.readOnly) in MountsOf(list, e.target)
    ensures (exists v :: v in VolumesOf(list) && v.name == e.name) <==>
      !e.volume.kind.Unknown? || exists q :: q in list && q.name != "" && Carries(q, e.name)
  {
    OpenGateWrites(list, ctx);
    RowMounts(list, e);
    GateOpensIff(list, ctx);
    SomeVolumeIff(list, e.name);
    forall q | q in list && q.name != ""
      ensures ToVolumeDef(q).Some? && ToVolumeDef(q).value.name == e.name <==>
        Carries(q, e.name) || (!q.volume.kind.Unknown? && q.name == e.name)
    {
      WritesNameIff(q, ctx, e.name);
    }
    forall q | q in list && q.name == e.name ensures q == e { SameNameSameRow(list, q, e); }
  }

  function VolumeName(e: Row): Option<string> {
    if ToVolumeDef(e).Some? then Some(ToVolumeDef(e).value.name) else None
  }

  function VolumeNames(e: Row): seq<string> {
    if VolumeName(e).Some? then [VolumeName(e).value] else []
  }

  lemma NamesOfVolume(e: Row)
    ensures Map(NameOf, VolumeOf(e)) == VolumeNames(e)
  {
  }

  lemma {:induction false} NamesOfVolumes(rows: seq<Row>)
    ensures Map(NameOf, FlatMap(VolumeOf, rows)) == FlatMap(VolumeNames, rows)
  {
    if rows != [] {
      NamesOfVolumes(rows[1..]);
      MapAppend(NameOf, VolumeOf(rows[0]), FlatMap(VolumeOf, rows[1..]));
      NamesOfVolume(rows[0]);
    }
  }

  lemma RowsMatchIff(rows: seq<Row>, good: Row -> bool)
    requires forall e :: e in rows ==> (good(e) <==> VolumeName(e) == Some(e.name))
    ensures Map(NameOf, FlatMap(VolumeOf, rows)) == Names(rows) <==> forall e :: e in rows ==> good(e)
  {
    NamesOfVolumes(rows);
    OneForEach(VolumeName, VolumeNames, rows, Names(rows));
    forall i | 0 <= i < |rows| ensures VolumeName(rows[i]) == Some(Names(rows)[i]) <==> good(rows[i]) {
      assert rows[i] in rows;
    }
  }

  /**
   Behind an open gate the volumes written are those of the named rows, one for each, in row order and
   under the row's name, exactly when every named row of unknown kind carries its own raw volume.
   */
  lemma VolumesMatchRowsIff(list: seq<Row>, ctx: Ctx)
    requires Clean(Audit(list, ctx))
    ensures Map(NameOf, VolumesOf(list)) == Names(Filter(IsNamed, list)) <==>
      forall e :: e in list && e.name != "" ==> OwnRaw(e)
  {
    OpenGateWrites(list, ctx);
    NamedRowsKept(list);
    RowsMatchIff(Filter(IsNamed, list), OwnRaw);
  }

  lemma OneRow(e: Row)
    requires e.name != ""
    ensures FirstRows([e]) == [(e.name, e)]
  {
    var before: seq<Row> := [e][..0];
    assert before == [] && FirstRows(before) == [];
  }

  lemma OneRowVolumes(e: Row)
    requires e.name != ""
    ensures VolumesOf([e]) == VolumeOf(e)
  {
    OneRow(e);
    assert Values(FirstRows([e])) == [e] && [e][1..] == [];
    assert FlatMap(VolumeOf, [e]) == VolumeOf(e) + FlatMap(VolumeOf, []);
  }

  lemma RawlessRowWrites(e: Row)
    requires e.name != "" && e.mountPath != "" && e.volume.kind.Unknown? && e.volume.raw.None?
    ensures MountsOf([e], e.target) == [Mount(e.name, e.mountPath, e.subPath, e.readOnly)] && VolumesOf([e]) == []
  {
    assert [] + [e] == [e];
    MountsAppend([], e, e.target);
    OneRowVolumes(e);
  }

  /**
   A row of unknown kind without its raw volume that is otherwise in order: the gate is silent, the mount
   is written, no volume is.
   */
  lemma RawlessRowPasses(e: Row, ctx: Ctx)
    requires EntryOk(e, ctx) && e.name != "" && e.volume.kind.Unknown? && e.volume.raw.None?
    ensures Clean(Audit([e], ctx))
    ensures MountsOf([e], e.target) == [Mount(e.name, e.mountPath, e.subPath, e.readOnly)] && VolumesOf([e]) == []
  {
    GateOpensIff([e], ctx);
    RawlessRowWrites(e);
  }

  const NO_CTX := Ctx(None, None, None, None, None, None)

  lemma ShortPathIsFree(p: string)
    requires |p| == 2 && p[0] == '/' && p[1] == 'x'
    ensures Normalize(p) == p && !Blocked(p)
  {
    NormalizeSpec(p);
  }

  /** And there is such a row: volume v at /x. */
  lemma RawlessRowExists() returns (e: Row)
    ensures EntryOk(e, NO_CTX) && e.name == "v" && e.mountPath == "/x" && e.volume.kind.Unknown? && e.volume.raw.None?
  {
    e := Row("v", "main", "/x", "", false, NO_VOLUME.(kind := Kind.Unknown));
    ShortPathIsFree("/x");
  }

  ghost predicate DefsCarry(defs: Defs) {
    forall d :: d in defs && d.1.kind.Unknown? ==> d.1.raw.Some? && d.1.raw.value.name == d.0
  }

  lemma DetectCarries(v: Volume)
    ensures Detect(v).kind.Unknown? ==> Detect(v).raw == Some(v)
  {
  }

  lemma VolDefsCarry(vs: seq<Volume>)
    ensures DefsCarry(VolDefs(vs))
  {
    DefsEntries(vs);
    forall d | d in VolDefs(vs) && d.1.kind.Unknown? ensures d.1.raw.Some? && d.1.raw.value.name == d.0 {
      var w :| w in vs && d == (w.name, Detect(w));
      DetectCarries(w);
    }
  }

  /** A row as the form is opened with: it carries its raw volume if its kind is unknown. */
  lemma ReadRowCarries(defs: Defs, t: string, m: Mount)
    requires DefsCarry(defs)
    ensures OwnRaw(RowFor(t, m, defs))
  {
    var found := Get(defs, m.name);
    if found.Some? { assert (m.name, found.value) in defs; }
  }

  lemma FilledCarry(pod: Pod, defs: Defs)
    requires DefsCarry(defs)
    ensures forall e :: e in Fill(GroupRows(Groups(pod), defs)) ==> OwnRaw(e.1)
  {
    forall t, m ensures OwnRaw(RowFor(t, m, defs)) { ReadRowCarries(defs, t, m); }
    FilledDescribe(pod, defs, OwnRaw);
  }

  /**
   The rows a pod is opened with all carry their raw volumes, whatever the pod. The card of a row of
   unknown kind has its kind locked and its name fixed (src/components/common/VolumeMountCard.vue), so
   rows that come from a pod never meet that failure.
   */
  lemma OpenedRowsCarryRaw(pod: Pod)
    ensures forall e :: e in Backfill(pod) ==> OwnRaw(e)
  {
    var defs := VolDefs(pod.volumes);
    var filled := Fill(GroupRows(Groups(pod), defs));
    VolDefsCarry(pod.volumes);
    FilledCarry(pod, defs);
    PlaceGrows(filled, defs, OwnRaw);
    forall e | e in Values(Place(filled, defs)) ensures OwnRaw(e) { InValues(Place(filled, defs), e); }
  }

  lemma SameNameSameRow(list: seq<Row>, q: Row, e: Row)
    requires NamesApart(list) && q in list && e in list && q.name == e.name && e.name != ""
    ensures q == e
  {
    var i :| 0 <= i < |list| && list[i] == q;
    var j :| 0 <= j < |list| && list[j] == e;
    assert !(i < j) && !(j < i);
  }

  lemma {:induction false} NamesWritten(write: Row -> seq<Volume>, rows: seq<Row>)
    requires forall e :: e in rows ==> |write(e)| == 1 && write(e)[0].name == e.name
    ensures Map(NameOf, FlatMap(write, rows)) == Names(rows)
  {
    if rows != [] {
      NamesWritten(write, rows[1..]);
      assert FlatMap(write, rows) == write(rows[0]) + FlatMap(write, rows[1..]);
    }
  }

  /**
   Behind an open gate, when rows of unknown kind carry their own raw volume: the volumes written are
   those of the named rows, in row order, no name twice, and every mount of every target names one.
   */
  lemma {:induction false} OpenGateIsSound(list: seq<Row>, ctx: Ctx, t: string)
    requires Clean(Audit(list, ctx)) && forall e :: e in list ==> OwnRaw(e)
    ensures Map(NameOf, VolumesOf(list)) == Names(Filter(IsNamed, list))
    ensures Distinct(Map(NameOf, VolumesOf(list)))
    ensures forall m :: m in MountsOf(list, t) ==> m.name in Map(NameOf, VolumesOf(list))
  {
    OpenGateWrites(list, ctx);
    NamedRowsKept(list);
    assert forall e :: Writes(e) ==> |VolumeOf(e)| == 1 && VolumeOf(e)[0].name == e.name;
    NamesWritten(VolumeOf, Filter(IsNamed, list));
    DistinctNames(list);
    forall m | m in MountsOf(list, t) ensures m.name in Names(Filter(IsNamed, list)) {
      MountNamed(OfTarget(list, t), list, m);
    }
  }

  lemma {:induction false} DistinctNames(list: seq<Row>)
    requires NamesApart(list)
    ensures Distinct(Names(Filter(IsNamed, list)))
    ensures forall k :: k in Names(Filter(IsNamed, list)) ==> k in Names(list)
  {
    if list != [] {
      var n := |list| - 1;
      var before, e := list[..n], list[n];
      NamesLast(list);
      DistinctNames(before);
      assert list == before + [e];
      FilterLast(before, e);
      var kept := Filter(IsNamed, before);
      if e.name != "" {
        assert Names(kept + [e]) == Names(kept) + [e.name];
        DistinctAppend(Names(kept), e.name);
      } else {
        assert kept + [] == kept;
      }
    }
  }

  lemma {:induction false} MountNamed(rows: seq<Row>, list: seq<Row>, m: Mount)
    requires m in FlatMap(MountOf, rows) && forall r :: r in rows ==> r in list
    ensures m.name in Names(Filter(IsNamed, list))
  {
    if m in MountOf(rows[0]) {
      assert rows[0] in Filter(IsNamed, list);
      var i :| 0 <= i < |Filter(IsNamed, list)| && Filter(IsNamed, list)[i] == rows[0];
      assert Names(Filter(IsNamed, list))[i] == m.name;
    } else {
      MountNamed(rows[1..], list, m);
    }
  }
}
