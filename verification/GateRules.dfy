/**
 What each rule of the storage gate (src/logic/volumeMountValidation.js) reports, said of the row and of
 what is known about the namespace: one condition for each issue code of a single row, and the rows that
 the rules across rows report on.
 */
module GateRules {
  import opened Wrappers
  import opened Seqs
  import opened JsText
  import opened OrderedMap
  import opened Volumes
  import opened MountGate

  // ------------------------------------------------------------ which part reports what

  lemma InWhen(c: bool, code: Code, level: Level, x: Issue)
    ensures x in When(c, code, level) <==> c && x == Issue(code, level)
  {
  }

  lemma InSix(a: seq<Issue>, b: seq<Issue>, c: seq<Issue>, d: seq<Issue>, e: seq<Issue>, f: seq<Issue>, x: Issue)
    ensures x in a + b + c + d + e + f <==> x in a || x in b || x in c || x in d || x in e || x in f
  {
  }

  /** An item with both its fields. */
  predicate Full(it: Item) { it.key != "" && it.path != "" }

  /** The issues of one mount path. */
  lemma InMountPath(p: string, x: Issue)
    ensures x in MountPathIssues(p) <==>
      || (x == Issue(MountPathBackslash, Warn) && '\\' in p)
      || (x == Issue(MountPathRequired, Error) && !Absolute(p))
      || (Absolute(p) && x in AbsoluteIssues(p, Normalize(p)))
  {
  }

  function AbsoluteIssues(p: string, n: string): seq<Issue> {
    When(n != p, MountPathNormalized, Hint) + When(n == "/", MountPathRoot, Error) + SystemIssues(n)
  }

  function SystemIssues(n: string): seq<Issue> {
    if n in RUNTIME_PATHS then [Issue(SystemPathRuntime, Error)]
    else if n in ETC_PATHS then [Issue(SystemPathEtc, Error)]
    else if IsSaToken(n) then [Issue(SystemPathSaToken, Error)]
    else When(n in SHADOW_PATHS, SystemPathShadow, Warn)
  }

  lemma InItem(seen: seq<Item>, it: Item, allKeys: Option<seq<string>>, x: Issue)
    ensures x in ItemIssues(seen, it, allKeys) <==>
      && it.key != "" && it.path != ""
      && (|| (x == Issue(ItemPathInvalid, Error) && BadItemPath(it.path))
          || (x == Issue(ItemPathDuplicate, Warn) && exists q :: q in seen && Full(q) && q.path == it.path)
          || (x == Issue(ItemKeyMissing, Error) && allKeys.Some? && it.key !in allKeys.value))
  {
  }

  /** Two full items with one path. */
  ghost predicate PathTwice(items: seq<Item>) {
    exists i, j :: 0 <= i < j < |items| && items[i].path == items[j].path && Full(items[i]) && Full(items[j])
  }

  lemma PathTwiceLast(before: seq<Item>, last: Item)
    ensures PathTwice(before + [last]) <==>
      PathTwice(before) || (Full(last) && exists q :: q in before && Full(q) && q.path == last.path)
  {
    var items := before + [last];
    if PathTwice(before) {
      var i, j :| 0 <= i < j < |before| && before[i].path == before[j].path && Full(before[i]) && Full(before[j]);
      assert items[i].path == items[j].path && Full(items[i]) && Full(items[j]);
    }
    if q :| q in before && Full(q) && q.path == last.path && Full(last) {
      var i :| 0 <= i < |before| && before[i] == q;
      assert items[i].path == items[|before|].path && Full(items[i]) && Full(items[|before|]);
    }
    if PathTwice(items) {
      var i, j :| 0 <= i < j < |items| && items[i].path == items[j].path && Full(items[i]) && Full(items[j]);
      if j < |before| {
        assert before[i].path == before[j].path && Full(before[i]) && Full(before[j]);
      } else {
        assert before[i] in before;
      }
    }
  }

  /** What the items report, by code. */
  ghost predicate ItemReport(items: seq<Item>, allKeys: Option<seq<string>>, x: Issue) {
    || (x == Issue(ItemPathInvalid, Error) && exists it :: it in items && Full(it) && BadItemPath(it.path))
    || (x == Issue(ItemPathDuplicate, Warn) && PathTwice(items))
    || (x == Issue(ItemKeyMissing, Error) && allKeys.Some? &&
          exists it :: it in items && Full(it) && it.key !in allKeys.value)
  }

  lemma ItemReportLast(before: seq<Item>, last: Item, allKeys: Option<seq<string>>, x: Issue)
    ensures ItemReport(before + [last], allKeys, x) <==>
      ItemReport(before, allKeys, x) || x in ItemIssues(before, last, allKeys)
  {
    InItem(before, last, allKeys, x);
    PathTwiceLast(before, last);
    assert forall it :: it in before + [last] <==> it in before || it == last;
  }

  lemma {:induction false} InItems(items: seq<Item>, allKeys: Option<seq<string>>, x: Issue)
    ensures x in ItemsIssues(items, allKeys) <==> ItemReport(items, allKeys, x)
  {
    if items != [] {
      var before, last := items[..|items| - 1], items[|items| - 1];
      InItems(before, allKeys, x);
      ItemReportLast(before, last, allKeys, x);
      assert items == before + [last];
    }
  }

  /** The parts of one row's report. */
  lemma InEntry(e: Row, ctx: Ctx, x: Issue)
    ensures x in EntryIssues(e, ctx) <==>
      || (LacksSource(e) && x == Issue(SourceRequired, Error))
      || x in MountPathIssues(e.mountPath)
      || (BadTarget(e, ctx) && x == Issue(TargetInvalid, Error))
      || x in ItemsIssues(e.volume.items, AllKeys(e, ctx))
      || (HasHalfItem(e.volume.items) && x == Issue(ItemsIncomplete, Error))
      || (HidesRest(e, AllKeys(e, ctx)) && x == Issue(ItemsHideRest, Hint))
      || (SourceMissing(e, ctx) && x == Issue(SourceNotFound, Error))
      || x in SubPathIssues(e.subPath)
      || x in NfsIssues(e)
      || (SensitiveHostPath(e) && x == Issue(HostPathSensitive, Error))
      || (IsProjection(e) && !e.readOnly && x == Issue(ReadOnlySuggested, Hint))
      || x in ModeIssues(e)
      || (SubPathAbsent(e, AllKeys(e, ctx)) && x == Issue(SubPathNotInVolume, Warn))
  {
    var allKeys := AllKeys(e, ctx);
    var a, b, c := When(LacksSource(e), SourceRequired, Error), MountPathIssues(e.mountPath),
      When(BadTarget(e, ctx), TargetInvalid, Error);
    var d, f, g := ItemsIssues(e.volume.items, allKeys), When(HasHalfItem(e.volume.items), ItemsIncomplete, Error),
      When(HidesRest(e, allKeys), ItemsHideRest, Hint);
    var h, i, j := When(SourceMissing(e, ctx), SourceNotFound, Error), SubPathIssues(e.subPath), NfsIssues(e);
    var k, l, m, n := When(SensitiveHostPath(e), HostPathSensitive, Error),
      When(IsProjection(e) && !e.readOnly, ReadOnlySuggested, Hint), ModeIssues(e),
      When(SubPathAbsent(e, allKeys), SubPathNotInVolume, Warn);
    assert EntryIssues(e, ctx) == a + b + c + d + f + g + h + i + j + k + l + m + n;
    InSix(a, b, c, d, f, g, x);
    InSix(a + b + c + d + f + g, h, i, j, k, l, x);
    InSix(a + b + c + d + f + g + h + i + j + k + l, m, n, [], [], [], x);
    var all := a + b + c + d + f + g + h + i + j + k + l + m + n;
    assert all + [] + [] + [] == all;
  }

  // ------------------------------------------------------------ the source

  /** A kind that needs a source and a row that leaves its field empty. */
  lemma SourceRequiredIff(e: Row, ctx: Ctx)
    ensures Issue(SourceRequired, Error) in EntryIssues(e, ctx) <==>
      match e.volume.kind
      case Pvc => e.volume.pvcName == ""
      case HostPath => e.volume.hostPath == ""
      case Nfs => e.volume.server == ""
      case ConfigMap => e.volume.cmName == ""
      case Secret => e.volume.secretName == ""
      case _ => false
  {
    InEntry(e, ctx, Issue(SourceRequired, Error));
    NotOfParts(e, ctx, Issue(SourceRequired, Error));
  }

  /** Which codes the parts with several rules report. */
  lemma PartCodes(e: Row, x: Issue)
    ensures x in MountPathIssues(e.mountPath) ==> x.code in {MountPathBackslash, MountPathRequired,
      MountPathNormalized, MountPathRoot, SystemPathRuntime, SystemPathEtc, SystemPathSaToken, SystemPathShadow}
    ensures x in SubPathIssues(e.subPath) ==> x.code in {SubPathInvalid, SubPathSingleFileNote}
    ensures x in NfsIssues(e) ==> x.code in {NfsPathRoot, NfsPathInvalid}
    ensures x in ModeIssues(e) ==> x.code in {DefaultModeInvalid, DefaultModePermissive}
  {
    InMountPath(e.mountPath, x);
  }

  lemma ItemCodes(items: seq<Item>, allKeys: Option<seq<string>>, x: Issue)
    ensures x in ItemsIssues(items, allKeys) ==> x.code in {ItemPathInvalid, ItemPathDuplicate, ItemKeyMissing}
  {
    InItems(items, allKeys, x);
  }

  /** Codes that the parts with several rules do not report. */
  lemma NotOfParts(e: Row, ctx: Ctx, x: Issue)
    requires x.code in {SourceRequired, TargetInvalid, ItemsIncomplete, ItemsHideRest, SourceNotFound,
      HostPathSensitive, ReadOnlySuggested, SubPathNotInVolume}
    ensures x !in MountPathIssues(e.mountPath) && x !in ItemsIssues(e.volume.items, AllKeys(e, ctx))
    ensures x !in SubPathIssues(e.subPath) && x !in NfsIssues(e) && x !in ModeIssues(e)
  {
    PartCodes(e, x);
    ItemCodes(e.volume.items, AllKeys(e, ctx), x);
  }

  /** The named object is not among those of its own kind that are known to exist. */
  lemma SourceNotFoundIff(e: Row, ctx: Ctx)
    ensures Issue(SourceNotFound, Error) in EntryIssues(e, ctx) <==>
      match e.volume.kind
      case ConfigMap => e.volume.cmName != "" && ctx.knownCms.Some? && e.volume.cmName !in ctx.knownCms.value
      case Secret =>
        e.volume.secretName != "" && ctx.knownSecrets.Some? && e.volume.secretName !in ctx.knownSecrets.value
      case Pvc => e.volume.pvcName != "" && ctx.knownPvcs.Some? && e.volume.pvcName !in ctx.knownPvcs.value
      case _ => false
  {
    InEntry(e, ctx, Issue(SourceNotFound, Error));
    NotOfParts(e, ctx, Issue(SourceNotFound, Error));
  }

  /** The container to mount into is not among those that may be chosen, and a writable projection. */
  lemma TargetAndReadOnlyIff(e: Row, ctx: Ctx)
    ensures Issue(TargetInvalid, Error) in EntryIssues(e, ctx) <==>
      ctx.validTargets.Some? && e.target !in ctx.validTargets.value
    ensures Issue(ReadOnlySuggested, Hint) in EntryIssues(e, ctx) <==>
      (e.volume.kind == ConfigMap || e.volume.kind == Secret) && !e.readOnly
  {
    InEntry(e, ctx, Issue(TargetInvalid, Error));
    NotOfParts(e, ctx, Issue(TargetInvalid, Error));
    InEntry(e, ctx, Issue(ReadOnlySuggested, Hint));
    NotOfParts(e, ctx, Issue(ReadOnlySuggested, Hint));
  }

  // ------------------------------------------------------------ the mount path

  /** The codes of the mount path come from the mount path. */
  lemma OfMountPath(e: Row, ctx: Ctx, x: Issue)
    requires x.code in {MountPathBackslash, MountPathRequired, MountPathNormalized, MountPathRoot, SystemPathRuntime,
      SystemPathEtc, SystemPathSaToken, SystemPathShadow}
    ensures x in EntryIssues(e, ctx) <==> x in MountPathIssues(e.mountPath)
  {
    InEntry(e, ctx, x);
    PartCodes(e, x);
    ItemCodes(e.volume.items, AllKeys(e, ctx), x);
  }

  /** No two of the lists of system paths share a path, and no listed path lies in the token's directory. */
  lemma SystemPathsApart(p: string)
    ensures p in {"/proc", "/sys", "/dev"} ==> p !in ETC_PATHS && !IsSaToken(p) && p !in SHADOW_PATHS
    ensures p in {"/etc/hosts", "/etc/resolv.conf", "/etc/hostname"} ==>
      p !in RUNTIME_PATHS && !IsSaToken(p) && p !in SHADOW_PATHS
    ensures p in {"/etc", "/usr", "/bin", "/sbin", "/lib", "/root", "/var/lib"} ==>
      p !in RUNTIME_PATHS && p !in ETC_PATHS && !IsSaToken(p)
    ensures IsSaToken(p) ==> p !in RUNTIME_PATHS && p !in ETC_PATHS && p !in SHADOW_PATHS
  {
    assert p in {"/proc", "/sys", "/dev"} ==> |p| <= 5 && p[1] in {'p', 's', 'd'};
    assert p in {"/etc/hosts", "/etc/resolv.conf", "/etc/hostname"} ==> |p| >= 10 && p[1] == 'e';
    assert p in {"/etc", "/usr", "/bin", "/sbin", "/lib", "/root", "/var/lib"} ==> |p| <= 8;
  }

  predicate Rooted(p: string) { p != "" && p[0] == '/' }

  /** The service account's token and everything below it. */
  predicate TokenPath(p: string) { p == "/var/run/secrets" || (|p| >= 17 && p[..17] == "/var/run/secrets/") }

  lemma TokenPaths(p: string)
    ensures IsSaToken(p) <==> TokenPath(p)
  {
    assert |"/var/run/secrets/"| == 17;
  }

  lemma MountPathCodes(e: Row, ctx: Ctx, x: Issue)
    requires x.code in {MountPathBackslash, MountPathRequired, MountPathNormalized, MountPathRoot, SystemPathRuntime,
      SystemPathEtc, SystemPathSaToken, SystemPathShadow}
    ensures x in EntryIssues(e, ctx) <==>
      || (x == Issue(MountPathBackslash, Warn) && '\\' in e.mountPath)
      || (x == Issue(MountPathRequired, Error) && !Absolute(e.mountPath))
      || (Absolute(e.mountPath) && x in AbsoluteIssues(e.mountPath, Normalize(e.mountPath)))
  {
    OfMountPath(e, ctx, x);
    InMountPath(e.mountPath, x);
  }

  /** The issues of an absolute path in normal form n, each with its paths. */
  lemma InAbsolute(p: string, n: string, x: Issue)
    ensures x in AbsoluteIssues(p, n) <==>
      match x.code
      case MountPathNormalized => x.level == Hint && n != p
      case MountPathRoot => x.level == Error && n == "/"
      case SystemPathRuntime => x.level == Error && n in {"/proc", "/sys", "/dev"}
      case SystemPathEtc => x.level == Error && n in {"/etc/hosts", "/etc/resolv.conf", "/etc/hostname"}
      case SystemPathSaToken => x.level == Error && TokenPath(n)
      case SystemPathShadow =>
        x.level == Warn && n in {"/etc", "/usr", "/bin", "/sbin", "/lib", "/root", "/var/lib"}
      case _ => false
  {
    SystemPathsApart(n);
    TokenPaths(n);
    var a, b := When(n != p, MountPathNormalized, Hint), When(n == "/", MountPathRoot, Error);
    var c := SystemIssues(n);
    assert AbsoluteIssues(p, n) == a + b + c;
    assert x in a + b + c <==> x in a || x in b || x in c;
  }

  /**
   The codes of a mount path: it must be absolute and, once normalised, none of the paths the system needs;
   a backslash, a path not in normal form and a directory that would be covered are only pointed out.
   */
  lemma MountPathCode(e: Row, ctx: Ctx, x: Issue)
    requires x.code in {MountPathBackslash, MountPathRequired, MountPathNormalized, MountPathRoot, SystemPathRuntime,
      SystemPathEtc, SystemPathSaToken, SystemPathShadow}
    ensures x in EntryIssues(e, ctx) <==>
      var p, n := e.mountPath, Normalize(e.mountPath);
      match x.code
      case MountPathBackslash => x.level == Warn && '\\' in p
      case MountPathRequired => x.level == Error && !Rooted(p)
      case MountPathNormalized => x.level == Hint && Rooted(p) && n != p
      case MountPathRoot => x.level == Error && Rooted(p) && n == "/"
      case SystemPathRuntime => x.level == Error && Rooted(p) && n in {"/proc", "/sys", "/dev"}
      case SystemPathEtc =>
        x.level == Error && Rooted(p) && n in {"/etc/hosts", "/etc/resolv.conf", "/etc/hostname"}
      case SystemPathSaToken => x.level == Error && Rooted(p) && TokenPath(n)
      case SystemPathShadow =>
        x.level == Warn && Rooted(p) && n in {"/etc", "/usr", "/bin", "/sbin", "/lib", "/root", "/var/lib"}
      case _ => false
  {
    MountPathCodes(e, ctx, x);
    InAbsolute(e.mountPath, Normalize(e.mountPath), x);
  }

  const NOT_EMPTY: string -> bool := (part: string) => part != ""

  lemma {:induction false} CollapseKeepsSegments(s: string)
    ensures Split(Collapse(s), '/')[0] == Split(s, '/')[0]
    ensures Filter(NOT_EMPTY, Split(Collapse(s), '/')[1..]) == Filter(NOT_EMPTY, Split(s, '/')[1..])
  {
    if s != "" {
      CollapseKeepsSegments(s[1..]);
      var a, b := Split(Collapse(s[1..]), '/'), Split(s[1..], '/');
      if |s| >= 2 && s[0] == '/' && s[1] == '/' {
        assert b == [""] + b[1..] && Split(s, '/')[1..] == b;
        FilterCons(NOT_EMPTY, "", b[1..]);
      } else {
        assert Collapse(s)[1..] == Collapse(s[1..]);
        assert a == [a[0]] + a[1..] && b == [b[0]] + b[1..];
        FilterCons(NOT_EMPTY, a[0], a[1..]);
        FilterCons(NOT_EMPTY, b[0], b[1..]);
      }
    }
  }

  lemma {:induction false} SplitLast(s: string)
    ensures Split(s + "/", '/') == Split(s, '/') + [""]
  {
    if s == "" {
      assert s + "/" == "/" && "/"[1..] == "";
    } else {
      SplitLast(s[1..]);
      assert (s + "/")[1..] == s[1..] + "/";
    }
  }

  lemma {:induction false} DropSlashesKeepsSegments(s: string)
    ensures Filter(NOT_EMPTY, Split(DropSlashes(s), '/')) == Filter(NOT_EMPTY, Split(s, '/'))
  {
    if s != "" && s[|s| - 1] == '/' {
      var t := s[..|s| - 1];
      DropSlashesKeepsSegments(t);
      SplitLast(t);
      assert t + "/" == s;
      FilterAppend(NOT_EMPTY, Split(t, '/'), [""]);
      FilterNone(NOT_EMPTY, [""]);
    }
  }

  /** Normalising loses nothing but slashes and the white space at both ends: the segments stay. */
  lemma NormalizeKeepsSegments(p: string)
    ensures Filter(NOT_EMPTY, Split(Normalize(p), '/')) == Filter(NOT_EMPTY, Split(Trim(p), '/'))
  {
    var s := Trim(p);
    CollapseKeepsSegments(s);
    var a, b := Split(Collapse(s), '/'), Split(s, '/');
    assert a == [a[0]] + a[1..] && b == [b[0]] + b[1..];
    FilterCons(NOT_EMPTY, a[0], a[1..]);
    FilterCons(NOT_EMPTY, b[0], b[1..]);
    DropSlashesKeepsSegments(Collapse(s));
  }

  // ------------------------------------------------------------ the items of a projection

  /**
   The keys the projected object is known to have. A config map name left over in a secret's row is looked
   up first, in the secrets; a secret name left over in a config map's row is looked up when there is no other.
   */
  function KnownKeys(e: Row, ctx: Ctx): Option<seq<string>> {
    var name := if e.volume.cmName != "" then e.volume.cmName else e.volume.secretName;
    if e.volume.kind == ConfigMap && ctx.cmKeys.Some? && name in ctx.cmKeys.value then Some(ctx.cmKeys.value[name])
    else if e.volume.kind == Secret && ctx.secretKeys.Some? && name in ctx.secretKeys.value
    then Some(ctx.secretKeys.value[name])
    else None
  }

  lemma KnownKeysAre(e: Row, ctx: Ctx)
    ensures AllKeys(e, ctx) == KnownKeys(e, ctx)
  {
  }

  /** A path below the mount: relative, without backslash and white space, no segment empty or dot-dot. */
  predicate PlainPath(p: string) {
    && !Rooted(p) && '\\' !in p && (forall i :: 0 <= i < |p| ==> !IsSpace(p[i]))
    && (forall part :: part in Split(p, '/') ==> part != "" && part != "..")
  }

  lemma PlainPaths(p: string)
    ensures BadItemPath(p) <==> !PlainPath(p)
  {
    if !PlainPath(p) && !Rooted(p) && '\\' !in p && (forall i :: 0 <= i < |p| ==> !IsSpace(p[i])) {
      var part :| part in Split(p, '/') && (part == "" || part == "..");
    }
  }

  /** The codes of the items come from the items. */
  lemma OfItems(e: Row, ctx: Ctx, x: Issue)
    requires x.code in {ItemPathInvalid, ItemPathDuplicate, ItemKeyMissing}
    ensures x in EntryIssues(e, ctx) <==> x in ItemsIssues(e.volume.items, AllKeys(e, ctx))
  {
    InEntry(e, ctx, x);
    PartCodes(e, x);
  }

  /**
   The items: a row of the table with one field left empty is incomplete, with both it is passed over; of
   the others the path must be plain and should not come twice, and the key must exist where the keys are known.
   */
  lemma ItemsIff(e: Row, ctx: Ctx)
    ensures
      var items, keys := e.volume.items, KnownKeys(e, ctx);
      && (Issue(ItemsIncomplete, Error) in EntryIssues(e, ctx) <==>
            exists it :: it in items && (it.key == "") != (it.path == ""))
      && (Issue(ItemPathInvalid, Error) in EntryIssues(e, ctx) <==>
            exists it :: it in items && Full(it) && !PlainPath(it.path))
      && (Issue(ItemPathDuplicate, Warn) in EntryIssues(e, ctx) <==> PathTwice(items))
      && (Issue(ItemKeyMissing, Error) in EntryIssues(e, ctx) <==>
            keys.Some? && exists it :: it in items && Full(it) && it.key !in keys.value)
  {
    var keys := AllKeys(e, ctx);
    IncompleteIff(e, ctx);
    KnownKeysAre(e, ctx);
    forall p ensures BadItemPath(p) <==> !PlainPath(p) { PlainPaths(p); }
    OfItems(e, ctx, Issue(ItemPathInvalid, Error));
    InItems(e.volume.items, keys, Issue(ItemPathInvalid, Error));
    OfItems(e, ctx, Issue(ItemPathDuplicate, Warn));
    InItems(e.volume.items, keys, Issue(ItemPathDuplicate, Warn));
    OfItems(e, ctx, Issue(ItemKeyMissing, Error));
    InItems(e.volume.items, keys, Issue(ItemKeyMissing, Error));
  }

  lemma IncompleteIff(e: Row, ctx: Ctx)
    ensures Issue(ItemsIncomplete, Error) in EntryIssues(e, ctx) <==>
      exists it :: it in e.volume.items && (it.key == "") != (it.path == "")
  {
    InEntry(e, ctx, Issue(ItemsIncomplete, Error));
    NotOfParts(e, ctx, Issue(ItemsIncomplete, Error));
  }

  // ------------------------------------------------------------ the remaining fields

  /** A sub path is relative and does not climb; that it mounts a single file is pointed out. */
  lemma SubPathIssuesIff(e: Row, ctx: Ctx)
    ensures
      var p := e.subPath;
      var climbs := Rooted(p) || ".." in Split(p, '/');
      && (Issue(SubPathInvalid, Error) in EntryIssues(e, ctx) <==> p != "" && climbs)
      && (Issue(SubPathSingleFileNote, Hint) in EntryIssues(e, ctx) <==> p != "" && !climbs)
  {
    OfSubPath(e, ctx, Issue(SubPathInvalid, Error));
    OfSubPath(e, ctx, Issue(SubPathSingleFileNote, Hint));
  }

  lemma OfSubPath(e: Row, ctx: Ctx, x: Issue)
    requires x.code in {SubPathInvalid, SubPathSingleFileNote}
    ensures x in EntryIssues(e, ctx) <==> x in SubPathIssues(e.subPath)
  {
    InEntry(e, ctx, x);
    PartCodes(e, x);
    ItemCodes(e.volume.items, AllKeys(e, ctx), x);
  }

  /** An exported directory is absolute; without one the server's root is taken, which is pointed out. */
  lemma NfsIssuesIff(e: Row, ctx: Ctx)
    ensures
      var share := e.volume.kind == Nfs && e.volume.server != "";
      && (Issue(NfsPathInvalid, Error) in EntryIssues(e, ctx) <==>
            share && e.volume.nfsPath != "" && e.volume.nfsPath[0] != '/')
      && (Issue(NfsPathRoot, Warn) in EntryIssues(e, ctx) <==> share && e.volume.nfsPath == "")
  {
    OfNfs(e, ctx, Issue(NfsPathInvalid, Error));
    OfNfs(e, ctx, Issue(NfsPathRoot, Warn));
  }

  lemma OfNfs(e: Row, ctx: Ctx, x: Issue)
    requires x.code in {NfsPathRoot, NfsPathInvalid}
    ensures x in EntryIssues(e, ctx) <==> x in NfsIssues(e)
  {
    InEntry(e, ctx, x);
    PartCodes(e, x);
    ItemCodes(e.volume.items, AllKeys(e, ctx), x);
  }

  /** The directories of a node that a pod may not be given. */
  lemma HostPathIff(e: Row, ctx: Ctx)
    ensures Issue(HostPathSensitive, Error) in EntryIssues(e, ctx) <==>
      e.volume.kind == HostPath && e.volume.hostPath != "" && Normalize(e.volume.hostPath) in
        {"/", "/etc", "/var/run", "/var/run/docker.sock", "/root", "/home", "/proc", "/sys", "/dev"}
  {
    InEntry(e, ctx, Issue(HostPathSensitive, Error));
    NotOfParts(e, ctx, Issue(HostPathSensitive, Error));
  }

  /** Three or four octal digits. */
  predicate OctalMode(m: string) { 3 <= |m| <= 4 && forall i :: 0 <= i < |m| ==> '0' <= m[i] <= '7' }

  /** The mode of a projection is octal, and had better be one of the two that keep others out. */
  lemma ModeIssuesIff(e: Row, ctx: Ctx)
    ensures
      var m := e.volume.defaultMode;
      var given := (e.volume.kind == ConfigMap || e.volume.kind == Secret) && m != "";
      && (Issue(DefaultModeInvalid, Error) in EntryIssues(e, ctx) <==> given && !OctalMode(m))
      && (Issue(DefaultModePermissive, Hint) in EntryIssues(e, ctx) <==>
            given && OctalMode(m) && m != "0400" && m != "0640")
  {
    OfMode(e, ctx, Issue(DefaultModeInvalid, Error));
    OfMode(e, ctx, Issue(DefaultModePermissive, Hint));
  }

  lemma OfMode(e: Row, ctx: Ctx, x: Issue)
    requires x.code in {DefaultModeInvalid, DefaultModePermissive}
    ensures x in EntryIssues(e, ctx) <==> x in ModeIssues(e)
  {
    InEntry(e, ctx, x);
    PartCodes(e, x);
    ItemCodes(e.volume.items, AllKeys(e, ctx), x);
  }

  /** How many items are full. */
  function FullCount(items: seq<Item>): nat {
    if items == [] then 0 else FullCount(items[1..]) + if Full(items[0]) then 1 else 0
  }

  lemma {:induction false} UsedCount(items: seq<Item>)
    ensures |Filter(FullItem, items)| == FullCount(items)
  {
    if items != [] { UsedCount(items[1..]); }
  }

  /**
   Projecting fewer items than there are keys hides the rest; a sub path that is neither the path of an item
   nor, without full items, a key, is not in the volume.
   */
  lemma ProjectionAdviceIff(e: Row, ctx: Ctx)
    ensures
      var items, keys, p := e.volume.items, KnownKeys(e, ctx), e.subPath;
      var projection := e.volume.kind == ConfigMap || e.volume.kind == Secret;
      && (Issue(ItemsHideRest, Hint) in EntryIssues(e, ctx) <==>
            keys.Some? && 0 < FullCount(items) < |keys.value|)
      && (Issue(SubPathNotInVolume, Warn) in EntryIssues(e, ctx) <==>
            && projection && p != "" && !Rooted(p) && ".." !in Split(p, '/')
            && if FullCount(items) > 0 then forall it :: it in items && Full(it) ==> it.path != p
               else keys.Some? && p !in keys.value)
  {
    KnownKeysAre(e, ctx);
    UsedCount(e.volume.items);
    InEntry(e, ctx, Issue(ItemsHideRest, Hint));
    NotOfParts(e, ctx, Issue(ItemsHideRest, Hint));
    InEntry(e, ctx, Issue(SubPathNotInVolume, Warn));
    NotOfParts(e, ctx, Issue(SubPathNotInVolume, Warn));
  }
}
