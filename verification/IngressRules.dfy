/** Editing the rules and TLS of an Ingress by host (src/composables/useIngressRules.js). */
module IngressRules {
  import opened Wrappers
  import opened Seqs
  import opened JsText
  import opened OrderedMap

  datatype Port = Number(n: nat) | Named(name: string) | NoPort

  /** Service is the v1 form and Legacy the one before it; NoBackend has neither. */
  datatype Backend = Service(name: string, port: Port) | Legacy(serviceName: string, servicePort: string) | NoBackend

  datatype Path = Path(path: string, pathType: string, backend: Backend)

  /** Rules as Kubernetes lists them: a host, "" where there is none, with its paths. A host may come more than once. */
  type Rules = seq<(string, seq<Path>)>

  datatype FlatRule = FlatRule(host: string, path: string, pathType: string, serviceName: string, servicePort: string)

  datatype EditPath = EditPath(path: string, pathType: string, serviceName: string, servicePort: string)

  datatype HostRow = HostRow(host: string, tls: bool, tlsSecret: string, paths: seq<EditPath>)

  function Or(s: string, default: string): string { if s == "" then default else s }

  function PortText(p: Port): string {
    match p
    case Number(n) => Decimal(n)
    case Named(name) => name
    case NoPort => ""
  }

  /** k8sPortOf: only digits make a number. */
  function PortOf(s: string): Port { if AllDigits(s) then Number(DigitsValue(s)) else Named(s) }

  function Flat(host: string, p: Path): FlatRule {
    var (name, port) :=
      match p.backend
      case Service(name, port) => (name, PortText(port))
      case Legacy(name, port) => (name, port)
      case NoBackend => ("", "");
    FlatRule(host, Or(p.path, "/"), Or(p.pathType, "Prefix"), name, port)
  }

  function Edit(r: FlatRule): EditPath {
    EditPath(Or(r.path, "/"), Or(r.pathType, "Prefix"), r.serviceName, r.servicePort)
  }

  function FlatEdit(host: string, p: EditPath): FlatRule {
    FlatRule(host, Or(p.path, "/"), Or(p.pathType, "Prefix"), p.serviceName, p.servicePort)
  }

  function Write(r: FlatRule): Path {
    Path(Or(r.path, "/"), Or(r.pathType, "Prefix"), Service(r.serviceName, PortOf(r.servicePort)))
  }

  function HostOf(r: FlatRule): string { r.host }

  // ------------------------------------------------------------ the four conversions

  function Flatten<P>(mk: (string, P) -> FlatRule, groups: seq<(string, seq<P>)>): seq<FlatRule> {
    if groups == [] then []
    else Flatten(mk, groups[..|groups| - 1]) + FlattenOne(mk, groups[|groups| - 1].0, groups[|groups| - 1].1)
  }

  function FlattenOne<P>(mk: (string, P) -> FlatRule, host: string, ps: seq<P>): seq<FlatRule> {
    Map(p => mk(host, p), ps)
  }

  method PushRules<P>(mk: (string, P) -> FlatRule, groups: seq<(string, seq<P>)>) returns (out: seq<FlatRule>)
    ensures out == Flatten(mk, groups)
  {
    out := [];
    for i := 0 to |groups|
      invariant out == Flatten(mk, groups[..i])
    {
      assert groups[..i + 1][..i] == groups[..i];
      ghost var before := out;
      var host, ps := groups[i].0, groups[i].1;
      for k := 0 to |ps|
        invariant out == before + FlattenOne(mk, host, ps)[..k]
      {
        out := out + [mk(host, ps[k])];
      }
    }
    assert groups[..|groups|] == groups;
  }

  function Grouped(rules: Rules): Entries<string, seq<EditPath>> { GroupBy(HostOf, Edit, Flatten(Flat, rules)) }

  function RowOf(e: (string, seq<EditPath>)): HostRow { HostRow(e.0, false, "", e.1) }

  function PairOf(h: HostRow): (string, seq<EditPath>) { (h.host, h.paths) }

  /** The rows the editor opens with. */
  function HostRows(rules: Rules): seq<HostRow> { Map(RowOf, Grouped(rules)) }

  /** The rules the editor saves. */
  function PatchRules(hosts: seq<HostRow>): Rules { GroupBy(HostOf, Write, Flatten(FlatEdit, Map(PairOf, hosts))) }

  method OpenEditor(rules: Rules) returns (hosts: seq<HostRow>)
    ensures hosts == HostRows(rules)
  {
    var flat := PushRules(Flat, rules);
    var byHost := Group(HostOf, Edit, flat);
    hosts := Map(RowOf, byHost);
  }

  method BuildRules(hosts: seq<HostRow>) returns (rules: Rules)
    ensures rules == PatchRules(hosts)
  {
    var flat := PushRules(FlatEdit, Map(PairOf, hosts));
    rules := Group(HostOf, Write, flat);
  }

  // ------------------------------------------------------------ what each host keeps

  /** All paths of a host, over all its rules, in order. */
  function PathsOf<P>(groups: seq<(string, seq<P>)>, h: string): seq<P> {
    if groups == [] then []
    else PathsOf(groups[..|groups| - 1], h) + if groups[|groups| - 1].0 == h then groups[|groups| - 1].1 else []
  }

  lemma {:induction false} FlattenKeepsPaths<P, V>(mk: (string, P) -> FlatRule, val: FlatRule -> V, f: P -> V,
      groups: seq<(string, seq<P>)>, h: string)
    requires forall host, p :: mk(host, p).host == host && val(mk(host, p)) == f(p)
    ensures Members(HostOf, val, Flatten(mk, groups), h) == Map(f, PathsOf(groups, h))
  {
    if groups != [] {
      var before, g := groups[..|groups| - 1], groups[|groups| - 1];
      FlattenKeepsPaths(mk, val, f, before, h);
      MembersAppend(HostOf, val, Flatten(mk, before), FlattenOne(mk, g.0, g.1), h);
      MembersOfOne(HostOf, val, FlattenOne(mk, g.0, g.1), g.0, h);
      assert Map(val, FlattenOne(mk, g.0, g.1)) == Map(f, g.1);
      MapAppend(f, PathsOf(before, h), if g.0 == h then g.1 else []);
    }
  }

  lemma {:induction false} PathsOfTable<P>(m: Entries<string, seq<P>>, h: string)
    requires Distinct(Keys(m))
    ensures PathsOf(m, h) == Get(m, h).GetOr([])
  {
    if m != [] {
      var before, e := m[..|m| - 1], m[|m| - 1];
      assert Keys(m) == Keys(before) + [e.0];
      DistinctAppend(Keys(before), e.0);
      PathsOfTable(before, h);
      GetLast(before, e, h);
      assert m == before + [e];
    }
  }

  lemma {:induction false} GetLast<K, V>(m: Entries<K, V>, e: (K, V), k: K)
    ensures Get(m + [e], k) == if k in Keys(m) then Get(m, k) else if e.0 == k then Some(e.1) else None
  {
    if m == [] {
      assert ([] + [e])[1..] == [];
    } else {
      GetLast(m[1..], e, k);
      assert (m + [e])[1..] == m[1..] + [e];
      assert Keys(m) == [m[0].0] + Keys(m[1..]);
    }
  }

  lemma {:induction false} GroupingKeepsPaths<P, V>(mk: (string, P) -> FlatRule, val: FlatRule -> V, f: P -> V,
      groups: seq<(string, seq<P>)>, h: string)
    requires forall host, p :: mk(host, p).host == host && val(mk(host, p)) == f(p)
    ensures PathsOf(GroupBy(HostOf, val, Flatten(mk, groups)), h) == Map(f, PathsOf(groups, h))
  {
    GroupByMembers(HostOf, val, Flatten(mk, groups), h);
    PathsOfTable(GroupBy(HostOf, val, Flatten(mk, groups)), h);
    FlattenKeepsPaths(mk, val, f, groups, h);
  }

  /** One path through the editor and back. */
  function Round(p: Path): Path { Write(FlatEdit("", Edit(Flat("", p)))) }

  lemma PairsOfRows(m: Entries<string, seq<EditPath>>)
    ensures Map(PairOf, Map(RowOf, m)) == m
  {
  }

  /** Opening and saving sends, for every host, the same paths in the same order, each as one path fares alone. */
  lemma {:induction false} EditorKeepsPaths(rules: Rules, h: string)
    ensures PathsOf(PatchRules(HostRows(rules)), h) == Map(Round, PathsOf(rules, h))
  {
    var toEdit := (p: Path) => Edit(Flat("", p));
    var toPath := (p: EditPath) => Write(FlatEdit("", p));
    PairsOfRows(Grouped(rules));
    GroupingKeepsPaths(Flat, Edit, toEdit, rules, h);
    GroupingKeepsPaths(FlatEdit, Write, toPath, Grouped(rules), h);
    assert Map(toPath, Map(toEdit, PathsOf(rules, h))) == Map(Round, PathsOf(rules, h));
  }

  /**
   The paths that come back as they were: v1 service backends with a path, a type and a port, a named port
   not all digits.
   */
  predicate Canonical(p: Path) {
    && p.path != "" && p.pathType != "" && p.backend.Service?
    && match p.backend.port
       case Number(_) => true
       case Named(name) => !AllDigits(name)
       case NoPort => false
  }

  lemma RoundIff(p: Path)
    ensures Round(p) == p <==> Canonical(p)
  {
    if p.backend.Service? && p.backend.port.Number? {
      DecimalRoundTrip(p.backend.port.n);
    }
  }

  /** Opening and saving leaves a host's paths as they were exactly when each of them is canonical. */
  lemma {:induction false} PathsReturnIff(rules: Rules, h: string)
    ensures PathsOf(PatchRules(HostRows(rules)), h) == PathsOf(rules, h) <==>
      forall p :: p in PathsOf(rules, h) ==> Canonical(p)
  {
    var ps := PathsOf(rules, h);
    EditorKeepsPaths(rules, h);
    forall i | 0 <= i < |ps| ensures Map(Round, ps)[i] == ps[i] <==> Canonical(ps[i]) { RoundIff(ps[i]); }
    assert Map(Round, ps) == ps <==> forall i :: 0 <= i < |ps| ==> Map(Round, ps)[i] == ps[i];
  }

  /** A path as the editor shows it. */
  function ShownPath(p: Path): EditPath {
    EditPath(
      if p.path == "" then "/" else p.path,
      if p.pathType == "" then "Prefix" else p.pathType,
      match p.backend
        case Service(name, _) => name
        case Legacy(name, _) => name
        case NoBackend => "",
      match p.backend
        case Service(_, Number(n)) => Decimal(n)
        case Service(_, Named(port)) => port
        case Service(_, NoPort) => ""
        case Legacy(_, port) => port
        case NoBackend => "")
  }

  /** A path of the editor as it is sent. */
  function SentPath(p: EditPath): Path {
    Path(
      if p.path == "" then "/" else p.path,
      if p.pathType == "" then "Prefix" else p.pathType,
      Service(p.serviceName,
        if AllDigits(p.servicePort) then Number(DigitsValue(p.servicePort)) else Named(p.servicePort)))
  }

  /** A flat rule from elsewhere is shown and sent with the same defaults. */
  lemma DefaultsOfFlatRule(r: FlatRule)
    ensures Edit(r).path == Write(r).path == if r.path == "" then "/" else r.path
    ensures Edit(r).pathType == Write(r).pathType == if r.pathType == "" then "Prefix" else r.pathType
  {
  }

  /** The editor opens with every path of a host, in order, with / and Prefix where they are left out. */
  lemma OpenedPaths(rules: Rules, h: string)
    ensures PathsOf(Map(PairOf, HostRows(rules)), h) == Map(ShownPath, PathsOf(rules, h))
  {
    PairsOfRows(Grouped(rules));
    GroupingKeepsPaths(Flat, Edit, ShownPath, rules, h);
  }

  /** It sends every path of a host's rows, in order, as a v1 service whose port is a number if it is all digits. */
  lemma SentPaths(hosts: seq<HostRow>, h: string)
    ensures PathsOf(PatchRules(hosts), h) == Map(SentPath, PathsOf(Map(PairOf, hosts), h))
  {
    GroupingKeepsPaths(FlatEdit, Write, SentPath, Map(PairOf, hosts), h);
  }

  // ------------------------------------------------------------ which hosts, in which order

  lemma {:induction false} FirstSeenSame<K>(ks: seq<K>, run: seq<K>, k: K)
    requires forall i :: 0 <= i < |run| ==> run[i] == k
    ensures FirstSeen(ks + run) == if run == [] || k in FirstSeen(ks) then FirstSeen(ks) else FirstSeen(ks) + [k]
  {
    if run == [] {
      assert ks + run == ks;
    } else {
      var before := run[..|run| - 1];
      FirstSeenSame(ks, before, k);
      assert ks + run == (ks + before) + [run[|run| - 1]];
      FirstSeenNext(ks + before, run[|run| - 1]);
    }
  }

  lemma {:induction false} FlattenHosts<P>(mk: (string, P) -> FlatRule, groups: seq<(string, seq<P>)>)
    requires Distinct(Keys(groups)) && (forall g :: g in groups ==> g.1 != []) &&
      forall host, p :: mk(host, p).host == host
    ensures FirstSeen(Map(HostOf, Flatten(mk, groups))) == Keys(groups)
  {
    if groups != [] {
      var before, g := groups[..|groups| - 1], groups[|groups| - 1];
      assert Keys(groups) == Keys(before) + [g.0];
      DistinctAppend(Keys(before), g.0);
      FlattenHosts(mk, before);
      var one := FlattenOne(mk, g.0, g.1);
      MapAppend(HostOf, Flatten(mk, before), one);
      assert g in groups;
      FirstSeenSame(Map(HostOf, Flatten(mk, before)), Map(HostOf, one), g.0);
    }
  }

  lemma {:induction false} GroupsNotEmpty<T, K, V>(key: T -> K, val: T -> V, xs: seq<T>)
    ensures forall g :: g in GroupBy(key, val, xs) ==> g.1 != []
  {
    if xs != [] {
      var before, x := xs[..|xs| - 1], xs[|xs| - 1];
      GroupsNotEmpty(key, val, before);
      PutEntries(GroupBy(key, val, before), key(x), Get(GroupBy(key, val, before), key(x)).GetOr([]) + [val(x)]);
    }
  }

  /** The hosts saved are those with a path, each once, in the order they first appeared. */
  lemma {:induction false} HostsKeepTheirOrder(rules: Rules)
    ensures Keys(PatchRules(HostRows(rules))) == FirstSeen(Map(HostOf, Flatten(Flat, rules)))
    ensures Distinct(Keys(PatchRules(HostRows(rules))))
  {
    var flat := Flatten(Flat, rules);
    var m := Grouped(rules);
    PairsOfRows(m);
    GroupByKeys(HostOf, Edit, flat);
    GroupByMembers(HostOf, Edit, flat, "");
    GroupsNotEmpty(HostOf, Edit, flat);
    FlattenHosts(FlatEdit, m);
    GroupByKeys(HostOf, Write, Flatten(FlatEdit, m));
    GroupByMembers(HostOf, Write, Flatten(FlatEdit, m), "");
  }

  // ------------------------------------------------------------ TLS

  /** An entry of spec.tls; one without hosts covers no host in particular. */
  datatype Tls = Tls(hosts: seq<string>, secretName: string)

  /** Every host an entry names, with that entry's secret; the last entry to name a host wins. */
  function SecretByHost(tls: seq<Tls>): Entries<string, string> {
    if tls == [] then [] else NameHosts(SecretByHost(tls[..|tls| - 1]), tls[|tls| - 1].hosts, tls[|tls| - 1].secretName)
  }

  function NameHosts(m: Entries<string, string>, hosts: seq<string>, secret: string): Entries<string, string> {
    if hosts == [] then m else Put(NameHosts(m, hosts[..|hosts| - 1], secret), hosts[|hosts| - 1], secret)
  }

  function Hydrated(byHost: Entries<string, string>, h: HostRow): HostRow {
    var secret := Get(byHost, h.host);
    if secret.Some? then h.(tls := true, tlsSecret := secret.value) else h
  }

  function HydrateTls(hosts: seq<HostRow>, tls: seq<Tls>): seq<HostRow> {
    var byHost := SecretByHost(tls);
    Map(h => Hydrated(byHost, h), hosts)
  }

  method HydrateHostTls(hosts: seq<HostRow>, tls: seq<Tls>) returns (rows: seq<HostRow>)
    ensures rows == HydrateTls(hosts, tls)
  {
    var byHost: Entries<string, string> := [];
    for i := 0 to |tls|
      invariant byHost == SecretByHost(tls[..i])
    {
      assert tls[..i + 1][..i] == tls[..i];
      ghost var before := byHost;
      var named := tls[i].hosts;
      for k := 0 to |named|
        invariant byHost == NameHosts(before, named[..k], tls[i].secretName)
      {
        assert named[..k + 1][..k] == named[..k];
        byHost := Put(byHost, named[k], tls[i].secretName);
      }
      assert named[..|named|] == named;
    }
    assert tls[..|tls|] == tls;
    rows := Map(h => Hydrated(byHost, h), hosts);
  }

  predicate Ticked(h: HostRow) { h.tls && h.host != "" }

  function RowTls(h: HostRow): Tls { Tls([h.host], h.tlsSecret) }

  function RowHosts(rows: seq<HostRow>): seq<string> { Filter(h => h != "", Map((r: HostRow) => r.host, rows)) }

  function NotIn(taken: seq<string>): string -> bool { h => h !in taken }

  /** An old entry, less the hosts the rows speak for; without hosts it stays as it is. */
  function Remaining(taken: seq<string>, t: Tls): seq<Tls> {
    if t.hosts == [] then [t]
    else
      var rest := Filter(NotIn(taken), t.hosts);
      if rest == [] then [] else [t.(hosts := rest)]
  }

  function KeepRest(taken: seq<string>): Tls -> seq<Tls> { t => Remaining(taken, t) }

  function SaveTls(rows: seq<HostRow>, existing: seq<Tls>): seq<Tls> {
    Map(RowTls, Filter(Ticked, rows)) + FlatMap(KeepRest(RowHosts(rows)), existing)
  }

  method TlsFromHosts(rows: seq<HostRow>, existing: seq<Tls>) returns (tls: seq<Tls>)
    ensures tls == SaveTls(rows, existing)
  {
    var rest := PushAll(KeepRest(RowHosts(rows)), existing);
    tls := Map(RowTls, Filter(Ticked, rows)) + rest;
  }

  function Naming(h: string): Tls -> bool { (t: Tls) => h in t.hosts }

  function SecretOf(t: Tls): string { t.secretName }

  /** The secrets of the entries that name a host, in order. */
  function SecretsOf(tls: seq<Tls>, h: string): seq<string> { Map(SecretOf, Filter(Naming(h), tls)) }

  lemma SecretsAppend(xs: seq<Tls>, ys: seq<Tls>, h: string)
    ensures SecretsOf(xs + ys, h) == SecretsOf(xs, h) + SecretsOf(ys, h)
  {
    FilterAppend(Naming(h), xs, ys);
    MapAppend(SecretOf, Filter(Naming(h), xs), Filter(Naming(h), ys));
  }

  lemma SecretsOfOne(t: Tls, h: string)
    ensures SecretsOf([t], h) == if h in t.hosts then [t.secretName] else []
  {
    FilterOne(Naming(h), t);
  }

  lemma RemainingSecrets(taken: seq<string>, t: Tls, h: string)
    ensures SecretsOf(Remaining(taken, t), h) == if h in taken then [] else SecretsOf([t], h)
  {
    var kept := Remaining(taken, t);
    SecretsOfOne(t, h);
    if kept != [] { SecretsOfOne(kept[0], h); }
  }

  lemma {:induction false} RestSecrets(taken: seq<string>, prior: seq<Tls>, h: string)
    ensures SecretsOf(FlatMap(KeepRest(taken), prior), h) == if h in taken then [] else SecretsOf(prior, h)
  {
    if prior != [] {
      RestSecrets(taken, prior[1..], h);
      RemainingSecrets(taken, prior[0], h);
      SecretsAppend(Remaining(taken, prior[0]), FlatMap(KeepRest(taken), prior[1..]), h);
      SecretsAppend([prior[0]], prior[1..], h);
      assert [prior[0]] + prior[1..] == prior;
    }
  }

  function TickedFor(h: string): HostRow -> bool { (r: HostRow) => r.tls && r.host == h }

  function OfHost(h: string): HostRow -> bool { (r: HostRow) => r.host == h }

  function RowSecret(r: HostRow): string { r.tlsSecret }

  lemma {:induction false} RowSecrets(rows: seq<HostRow>, h: string)
    requires h != ""
    ensures SecretsOf(Map(RowTls, Filter(Ticked, rows)), h) == Map(RowSecret, Filter(TickedFor(h), rows))
  {
    FilterMap(RowTls, Naming(h), OfHost(h), Filter(Ticked, rows));
    FilterFilter(Ticked, OfHost(h), TickedFor(h), rows);
  }

  lemma RowHostsAre(rows: seq<HostRow>)
    ensures forall h :: h in RowHosts(rows) <==> h != "" && exists r :: r in rows && r.host == h
  {
    var hosts := Map((r: HostRow) => r.host, rows);
    forall h ensures h in hosts <==> exists r :: r in rows && r.host == h {
      if h in hosts { var i :| 0 <= i < |rows| && hosts[i] == h; assert rows[i] in rows; }
      if r :| r in rows && r.host == h { var i :| 0 <= i < |rows| && rows[i] == r; assert hosts[i] == h; }
    }
  }

  /**
   What a save makes of a host: the secrets of its ticked rows, and after them the entries it had
   only if no row speaks for it.
   */
  lemma {:induction false} SavedSecrets(rows: seq<HostRow>, prior: seq<Tls>, h: string)
    requires h != ""
    ensures SecretsOf(SaveTls(rows, prior), h) ==
      Map(RowSecret, Filter(TickedFor(h), rows)) + if h in RowHosts(rows) then [] else SecretsOf(prior, h)
  {
    SecretsAppend(Map(RowTls, Filter(Ticked, rows)), FlatMap(KeepRest(RowHosts(rows)), prior), h);
    RowSecrets(rows, h);
    RestSecrets(RowHosts(rows), prior, h);
  }

  /** Some row has this host. */
  predicate HasRow(rows: seq<HostRow>, h: string) { exists r :: r in rows && r.host == h }

  /** What a save leaves of an old entry: the hosts without a row, with the secret they had. */
  predicate Leftover(rows: seq<HostRow>, was: Tls, t: Tls, unspoken: string -> bool) {
    if was.hosts == [] then t == was
    else t.hosts != [] && t == was.(hosts := Filter(unspoken, was.hosts))
  }

  /**
   The entries of a save, each: one for every ticked row with a host, of that host alone; and what is left
   of the old ones. A ticked row without a host gives none.
   */
  lemma SavedEntries(rows: seq<HostRow>, prior: seq<Tls>, t: Tls, unspoken: string -> bool)
    requires forall h :: unspoken(h) <==> h == "" || !HasRow(rows, h)
    ensures t in SaveTls(rows, prior) <==>
      || (exists r :: r in rows && r.tls && r.host != "" && t == Tls([r.host], r.tlsSecret))
      || exists was :: was in prior && Leftover(rows, was, t, unspoken)
  {
    var own, rest := Map(RowTls, Filter(Ticked, rows)), FlatMap(KeepRest(RowHosts(rows)), prior);
    InOwn(rows, t);
    InFlatMap(KeepRest(RowHosts(rows)), prior, t);
    RowHostsAre(rows);
    forall was ensures t in Remaining(RowHosts(rows), was) <==> Leftover(rows, was, t, unspoken) {
      FilterAlike(NotIn(RowHosts(rows)), unspoken, was.hosts);
    }
    assert t in own + rest <==> t in own || t in rest;
  }

  lemma InOwn(rows: seq<HostRow>, t: Tls)
    ensures t in Map(RowTls, Filter(Ticked, rows)) <==>
      exists r :: r in rows && r.tls && r.host != "" && t == Tls([r.host], r.tlsSecret)
  {
    var ticked := Filter(Ticked, rows);
    if t in Map(RowTls, ticked) {
      var i :| 0 <= i < |ticked| && Map(RowTls, ticked)[i] == t;
      assert ticked[i] in rows && t == Tls([ticked[i].host], ticked[i].tlsSecret);
    }
    if r :| r in rows && r.tls && r.host != "" && t == Tls([r.host], r.tlsSecret) {
      assert r in ticked;
      var i :| 0 <= i < |ticked| && ticked[i] == r;
      assert Map(RowTls, ticked)[i] == t;
    }
  }

  /** A host whose rows are all unticked is in no entry any more; a host in no row keeps its entries. */
  lemma UntickedIsRemoved(rows: seq<HostRow>, prior: seq<Tls>, h: string)
    requires h != "" && forall r :: r in rows && r.host == h ==> !r.tls
    ensures SecretsOf(SaveTls(rows, prior), h) == if exists r :: r in rows && r.host == h then []
      else SecretsOf(prior, h)
  {
    SavedSecrets(rows, prior, h);
    RowHostsAre(rows);
    FilterNone(TickedFor(h), rows);
  }

  predicate Hostless(t: Tls) { t.hosts == [] }

  lemma {:induction false} HostlessKept(rows: seq<HostRow>, prior: seq<Tls>)
    ensures Filter(Hostless, SaveTls(rows, prior)) == Filter(Hostless, prior)
  {
    var own := Map(RowTls, Filter(Ticked, rows));
    FilterAppend(Hostless, own, FlatMap(KeepRest(RowHosts(rows)), prior));
    forall t | t in own ensures !Hostless(t) {
      var i :| 0 <= i < |own| && own[i] == t;
    }
    FilterNone(Hostless, own);
    HostlessRest(RowHosts(rows), prior);
  }

  /** Entries without hosts are kept, all of them and in order. */
  lemma HostlessAreKept(rows: seq<HostRow>, prior: seq<Tls>, hostless: Tls -> bool)
    requires forall t :: hostless(t) <==> t.hosts == []
    ensures Filter(hostless, SaveTls(rows, prior)) == Filter(hostless, prior)
  {
    HostlessKept(rows, prior);
    FilterAlike(hostless, Hostless, SaveTls(rows, prior));
    FilterAlike(hostless, Hostless, prior);
  }

  lemma RemainingHostless(taken: seq<string>, t: Tls)
    ensures Filter(Hostless, Remaining(taken, t)) == Filter(Hostless, [t])
  {
    var kept := Remaining(taken, t);
    FilterOne(Hostless, t);
    if kept != [] { FilterOne(Hostless, kept[0]); }
  }

  lemma {:induction false} HostlessRest(taken: seq<string>, prior: seq<Tls>)
    ensures Filter(Hostless, FlatMap(KeepRest(taken), prior)) == Filter(Hostless, prior)
  {
    if prior != [] {
      HostlessRest(taken, prior[1..]);
      RemainingHostless(taken, prior[0]);
      FilterAppend(Hostless, Remaining(taken, prior[0]), FlatMap(KeepRest(taken), prior[1..]));
      FilterAppend(Hostless, [prior[0]], prior[1..]);
      assert [prior[0]] + prior[1..] == prior;
    }
  }

  lemma {:induction false} NameHostsSpec(m: Entries<string, string>, hosts: seq<string>, secret: string, h: string)
    ensures Get(NameHosts(m, hosts, secret), h) == if h in hosts then Some(secret) else Get(m, h)
  {
    if hosts != [] {
      var before, last := hosts[..|hosts| - 1], hosts[|hosts| - 1];
      assert hosts == before + [last];
      NameHostsSpec(m, before, secret, h);
      GetPut(NameHosts(m, before, secret), last, secret, h);
      assert h in hosts <==> h in before || h == last;
    }
  }

  /** The secret the editor shows for a host is that of the last entry that names it. */
  lemma {:induction false} ShownSecret(tls: seq<Tls>, h: string)
    ensures Get(SecretByHost(tls), h) == if SecretsOf(tls, h) == [] then None
      else Some(SecretsOf(tls, h)[|SecretsOf(tls, h)| - 1])
  {
    if tls != [] {
      var before, last := tls[..|tls| - 1], tls[|tls| - 1];
      ShownSecret(before, h);
      NameHostsSpec(SecretByHost(before), last.hosts, last.secretName, h);
      assert tls == before + [last];
      SecretsAppend(before, [last], h);
      SecretsOfOne(last, h);
    }
  }

  /** Rows as the editor opens them: one per host, none ticked yet. */
  ghost predicate Fresh(hosts: seq<HostRow>) {
    && (forall i, j :: 0 <= i < j < |hosts| ==> hosts[i].host != hosts[j].host)
    && forall r :: r in hosts ==> !r.tls
  }

  lemma {:induction false} OneTicked(rows: seq<HostRow>, i: nat)
    requires i < |rows| && forall j :: 0 <= j < |rows| && j != i ==> rows[j].host != rows[i].host
    ensures Filter(TickedFor(rows[i].host), rows) == if rows[i].tls then [rows[i]] else []
  {
    var h := rows[i].host;
    if i == 0 {
      FilterNone(TickedFor(h), rows[1..]);
    } else {
      OneTicked(rows[1..], i - 1);
    }
  }

  /**
   Opening and saving without an edit: a host with a row keeps its effective secret, the one of the
   last entry naming it, now in a single entry; a host without a row keeps its entries.
   */
  lemma UneditedTls(hosts: seq<HostRow>, tls: seq<Tls>, h: string)
    requires Fresh(hosts) && h != ""
    ensures
      var prior, saved := SecretsOf(tls, h), SecretsOf(SaveTls(HydrateTls(hosts, tls), tls), h);
      saved == if prior != [] && (exists r :: r in hosts && r.host == h) then [prior[|prior| - 1]] else prior
  {
    if r :| r in hosts && r.host == h {
      var i :| 0 <= i < |hosts| && hosts[i] == r;
      RowKeepsSecret(hosts, tls, i);
    } else {
      var rows := HydrateTls(hosts, tls);
      forall r | r in rows ensures r.host != h {
        var i :| 0 <= i < |rows| && rows[i] == r;
        assert hosts[i] in hosts;
      }
      UntickedIsRemoved(rows, tls, h);
    }
  }

  lemma TickedSecret(rows: seq<HostRow>, i: nat)
    requires i < |rows| && forall j :: 0 <= j < |rows| && j != i ==> rows[j].host != rows[i].host
    ensures Map(RowSecret, Filter(TickedFor(rows[i].host), rows)) == if rows[i].tls then [rows[i].tlsSecret] else []
  {
    OneTicked(rows, i);
    assert Map(RowSecret, [rows[i]]) == [rows[i].tlsSecret];
  }

  lemma RowKeepsSecret(hosts: seq<HostRow>, tls: seq<Tls>, i: nat)
    requires Fresh(hosts) && i < |hosts| && hosts[i].host != ""
    ensures
      var prior, saved := SecretsOf(tls, hosts[i].host), SecretsOf(SaveTls(HydrateTls(hosts, tls), tls), hosts[i].host);
      saved == if prior != [] then [prior[|prior| - 1]] else []
  {
    var rows, h := HydrateTls(hosts, tls), hosts[i].host;
    SavedSecrets(rows, tls, h);
    ShownSecret(tls, h);
    HydratedRow(hosts, tls, i);
    TickedSecret(rows, i);
  }

  lemma {:induction false} HydratedRow(hosts: seq<HostRow>, tls: seq<Tls>, i: nat)
    requires Fresh(hosts) && i < |hosts| && hosts[i].host != ""
    ensures var rows := HydrateTls(hosts, tls);
      && rows[i] == Hydrated(SecretByHost(tls), hosts[i]) && !hosts[i].tls
      && hosts[i].host in RowHosts(rows)
      && forall j :: 0 <= j < |rows| && j != i ==> rows[j].host != rows[i].host
  {
    var rows := HydrateTls(hosts, tls);
    RowHostsAre(rows);
    assert rows[i] in rows && hosts[i] in hosts;
    assert forall j :: 0 <= j < |rows| ==> rows[j].host == hosts[j].host;
  }

  /** The rows the editor opens with are fresh, and TLS never touches their paths. */
  lemma OpenedRowsAreFresh(rules: Rules, tls: seq<Tls>)
    ensures Fresh(HostRows(rules))
    ensures PatchRules(HydrateTls(HostRows(rules), tls)) == PatchRules(HostRows(rules))
  {
    var m := Grouped(rules);
    GroupByMembers(HostOf, Edit, Flatten(Flat, rules), "");
    assert forall i :: 0 <= i < |m| ==> HostRows(rules)[i].host == Keys(m)[i];
    assert Map(PairOf, HydrateTls(HostRows(rules), tls)) == Map(PairOf, HostRows(rules));
  }
}
