/** Which workload a pod belongs to, pods by ReplicaSet, and free node ports (src/logic/topology.js). */
module Topology {
  import opened Wrappers
  import opened Seqs
  import opened OrderedMap

  type Labels = map<string, string>

  datatype Pod = Pod(name: string, namespace: string, labels: Labels, owner: Option<string>)

  /**
   selector is spec.selector.matchLabels; templateApp and app are the app labels of its template and its
   own, "" where absent.
   */
  datatype Workload = Workload(name: string, namespace: string, selector: Labels, templateApp: string, app: string)

  // ------------------------------------------------------------ ownership by name

  /** The pod name starts with the workload name and a hyphen. */
  predicate Matches(w: string, p: string) { w + "-" <= p }

  predicate Longer(w: string, n: string) { n != "" && n != w && |n| > |w| && Matches(w, n) }

  predicate Claims(w: string, names: seq<string>, p: string) {
    w != "" && Matches(w, p) && forall n :: n in names && Longer(w, n) ==> !Matches(n, p)
  }

  function PodsByPrefixFallback(pods: seq<Pod>, w: string, names: seq<string>): seq<Pod> {
    if w == "" then []
    else
      var longer := Filter(n => Longer(w, n), names);
      Filter((p: Pod) => Matches(w, p.name) && forall n :: n in longer ==> !Matches(n, p.name), pods)
  }

  lemma ClaimedPods(pods: seq<Pod>, w: string, names: seq<string>, p: Pod)
    ensures p in PodsByPrefixFallback(pods, w, names) <==> p in pods && Claims(w, names, p.name)
  {
  }

  /** Of two names a pod name starts with, the shorter is followed in the longer by a hyphen. */
  lemma LongerMatches(w: string, n: string, p: string)
    requires Matches(w, p) && Matches(n, p) && |n| > |w|
    ensures Matches(w, n)
  {
    assert w + "-" == p[..|w| + 1] && n == p[..|n|];
    assert n[..|w| + 1] == p[..|w| + 1];
  }

  lemma SameLengthSameName(w: string, n: string, p: string)
    requires Matches(w, p) && Matches(n, p) && |n| == |w|
    ensures n == w
  {
    assert w == p[..|w|] && n == p[..|n|];
  }

  /** A workload claims a pod exactly when no listed name that the pod starts with is longer than its own. */
  lemma ClaimIff(w: string, names: seq<string>, p: string)
    requires w != ""
    ensures Claims(w, names, p) <==> Matches(w, p) && forall n :: n in names && Matches(n, p) ==> |n| <= |w|
  {
    if Matches(w, p) {
      forall n | n in names && Matches(n, p) && |n| > |w| ensures Longer(w, n) { LongerMatches(w, n, p); }
    }
  }

  lemma {:induction false} LongestMatch(names: seq<string>, p: string) returns (w: string)
    requires exists n :: n in names && n != "" && Matches(n, p)
    ensures w in names && w != "" && Matches(w, p) && forall n :: n in names && Matches(n, p) ==> |n| <= |w|
  {
    var others := names[1..];
    assert names == [names[0]] + others;
    if exists n :: n in others && n != "" && Matches(n, p) {
      w := LongestMatch(others, p);
      if Matches(names[0], p) && |names[0]| > |w| { w := names[0]; }
    } else {
      w := names[0];
    }
  }

  /**
   Prefix ownership is an exact assignment: a pod that some named workload matches is claimed by
   exactly one name, the longest, and any other pod by none.
   */
  lemma ExactlyOneClaims(names: seq<string>, p: string)
    ensures (exists w :: w in names && Claims(w, names, p)) <==> exists w :: w in names && w != "" && Matches(w, p)
    ensures forall v, w :: v in names && w in names && Claims(v, names, p) && Claims(w, names, p) ==> v == w
  {
    if exists w :: w in names && w != "" && Matches(w, p) {
      var w := LongestMatch(names, p);
      ClaimIff(w, names, p);
    }
    forall v, w | v in names && w in names && Claims(v, names, p) && Claims(w, names, p) ensures v == w {
      ClaimIff(v, names, p);
      ClaimIff(w, names, p);
      SameLengthSameName(v, w, p);
    }
  }

  function NameOf(w: Workload): string { w.name }

  /** Every label of the selector is on the pod. */
  predicate Selects(selector: Labels, p: Pod) {
    forall k :: k in selector ==> k in p.labels && p.labels[k] == selector[k]
  }

  predicate HasApp(p: Pod, app: string) { "app" in p.labels && p.labels["app"] == app }

  /** The workload says by labels which pods are its own; only one that does not is left to its name. */
  predicate ByLabels(w: Workload) { w.selector != map[] || w.templateApp != "" || w.app != "" }

  /** The first of selector, template app label and app label that is there decides. */
  predicate Labelled(w: Workload, p: Pod) {
    if w.selector != map[] then Selects(w.selector, p)
    else if w.templateApp != "" then HasApp(p, w.templateApp)
    else HasApp(p, w.app)
  }

  /**
   The pods a detail page shows: those of its namespace, by labels, else by name against the workloads of
   every namespace.
   */
  function ShownPods(pods: seq<Pod>, w: Workload, all: seq<Workload>): seq<Pod> {
    var inNs := Filter((p: Pod) => p.namespace == w.namespace, pods);
    if w.selector != map[] then Filter((p: Pod) => Selects(w.selector, p), inNs)
    else if w.templateApp != "" then Filter((p: Pod) => HasApp(p, w.templateApp), inNs)
    else if w.app != "" then Filter((p: Pod) => HasApp(p, w.app), inNs)
    else PodsByPrefixFallback(inNs, w.name, Map(NameOf, all))
  }

  /** No name the pod starts with, over the workloads of all namespaces, is longer than this one. */
  predicate LongestFor(w: Workload, all: seq<Workload>, p: Pod) {
    && w.name != "" && Matches(w.name, p.name)
    && forall n :: n in Map(NameOf, all) && Matches(n, p.name) ==> |n| <= |w.name|
  }

  /** The detail page of a workload shows a pod of its namespace by its labels, or else by the longest name. */
  lemma ShownIff(pods: seq<Pod>, w: Workload, all: seq<Workload>, p: Pod)
    ensures p in ShownPods(pods, w, all) <==>
      p in pods && p.namespace == w.namespace && if ByLabels(w) then Labelled(w, p) else LongestFor(w, all, p)
  {
    if !ByLabels(w) {
      ClaimedPods(Filter((q: Pod) => q.namespace == w.namespace, pods), w.name, Map(NameOf, all), p);
      if w.name != "" { ClaimIff(w.name, Map(NameOf, all), p.name); }
    }
  }

  /** The pod's name is the workload's, a hyphen and more. */
  predicate Under(name: string, pod: string) { |pod| > |name| && pod[..|name|] == name && pod[|name|] == '-' }

  lemma UnderIff(name: string, pod: string)
    ensures Matches(name, pod) <==> Under(name, pod)
  {
    assert Matches(name, pod) ==> pod[..|name|] == (name + "-")[..|name|] && pod[|name|] == (name + "-")[|name|];
    assert Under(name, pod) ==> pod[..|name| + 1] == name + "-";
  }

  /**
   The rule in full. Of the pods of its namespace, in their order, a page shows those with every label of the
   workload's selector; without one those with the app label of its template, without that those with its own;
   and without any of them those whose name lies under the workload's and under no longer name of all listed.
   */
  lemma ShownMeans(pods: seq<Pod>, w: Workload, all: seq<Workload>, p: Pod)
    ensures p in ShownPods(pods, w, all) <==>
      && p in pods && p.namespace == w.namespace
      && if w.selector != map[] then forall k :: k in w.selector ==> k in p.labels && p.labels[k] == w.selector[k]
         else if w.templateApp != "" then "app" in p.labels && p.labels["app"] == w.templateApp
         else if w.app != "" then "app" in p.labels && p.labels["app"] == w.app
         else
           && w.name != "" && Under(w.name, p.name)
           && forall v :: v in all && Under(v.name, p.name) ==> |v.name| <= |w.name|
  {
    ShownIff(pods, w, all, p);
    if !ByLabels(w) {
      UnderIff(w.name, p.name);
      forall n ensures n in Map(NameOf, all) <==> exists v :: v in all && v.name == n {
        if v :| v in all && v.name == n {
          var i :| 0 <= i < |all| && all[i] == v;
          assert Map(NameOf, all)[i] == n;
        }
      }
      forall n ensures Matches(n, p.name) <==> Under(n, p.name) { UnderIff(n, p.name); }
    }
  }

  /**
   A pod is shown by some workload of its own namespace exactly when one there claims it by labels, or
   one there that goes by its name has the longest matching name over the workloads of all namespaces: a
   longer name elsewhere takes the pod away from the names of its own namespace.
   */
  lemma ShownInOwnNamespaceIff(pods: seq<Pod>, all: seq<Workload>, p: Pod)
    requires p in pods
    ensures (exists w :: w in all && w.namespace == p.namespace && p in ShownPods(pods, w, all)) <==>
      exists w :: w in all && w.namespace == p.namespace && if ByLabels(w) then Labelled(w, p)
        else LongestFor(w, all, p)
  {
    forall w ensures p in ShownPods(pods, w, all) <==>
      p.namespace == w.namespace && if ByLabels(w) then Labelled(w, p) else LongestFor(w, all, p)
    {
      ShownIff(pods, w, all, p);
    }
  }

  const LONE_POD := Pod("web-api-1", "a", map[], None)
  const WEB := Workload("web", "a", map[], "", "")
  const API := Workload("web-api", "b", map[], "", "")

  /**
   The pod web-api-1 of namespace a, with a workload web there and a workload web-api in b, neither with
   labels to go by: web shows it alone, and with web-api listed beside it nobody does.
   */
  lemma LongerNameElsewhereTakesThePod()
    ensures LONE_POD in ShownPods([LONE_POD], WEB, [WEB])
    ensures forall w :: w in [WEB, API] ==> LONE_POD !in ShownPods([LONE_POD], w, [WEB, API])
  {
    assert Map(NameOf, [WEB]) == ["web"] && Map(NameOf, [WEB, API]) == ["web", "web-api"];
    assert "web-api-1"[..4] == "web" + "-" && "web-api-1"[..8] == "web-api" + "-";
    assert Matches("web", LONE_POD.name) && Matches("web-api", LONE_POD.name);
    assert Map(NameOf, [WEB, API])[1] == "web-api";
    ShownIff([LONE_POD], WEB, [WEB], LONE_POD);
    ShownIff([LONE_POD], WEB, [WEB, API], LONE_POD);
    ShownIff([LONE_POD], API, [WEB, API], LONE_POD);
  }

  // ------------------------------------------------------------ pods by ReplicaSet

  /** The pod's controlling ReplicaSet, if it is one of those listed. */
  function GroupName(listed: seq<string>): Pod -> Option<string> {
    (p: Pod) => if p.owner.Some? && p.owner.value in listed then p.owner else None
  }

  type Groups = seq<(string, seq<Pod>)>

  function Grouped(owner: Pod -> Option<string>, pods: seq<Pod>): Groups {
    if pods == [] then []
    else
      var before, p := Grouped(owner, pods[..|pods| - 1]), pods[|pods| - 1];
      if owner(p).None? then before else AddTo(before, owner(p).value, p)
  }

  predicate Indexed(groups: Groups, index: Entries<string, nat>) {
    && |index| == |groups|
    && forall i :: 0 <= i < |index| ==> index[i] == (groups[i].0, i)
  }

  lemma {:induction false} PutAt<K, V>(m: Entries<K, V>, i: nat, v: V)
    requires i < |m| && Distinct(Keys(m))
    ensures Put(m, m[i].0, v) == m[i := (m[i].0, v)]
  {
    if i > 0 {
      FirstKey(m);
      assert Keys(m)[0] != Keys(m)[i];
      PutAt(m[1..], i - 1, v);
      assert m == [m[0]] + m[1..];
    }
  }

  lemma {:induction false} IndexFinds(groups: Groups, index: Entries<string, nat>, k: string)
    requires Indexed(groups, index)
    ensures Get(index, k).None? ==> k !in Keys(groups)
    ensures Get(index, k).Some? ==> Get(index, k).value < |groups| && groups[Get(index, k).value].0 == k
  {
    assert forall i :: 0 <= i < |groups| ==> Keys(index)[i] == Keys(groups)[i];
    assert Keys(index) == Keys(groups);
    if Get(index, k).Some? {
      var i :| 0 <= i < |index| && index[i] == (k, Get(index, k).value);
    }
  }

  lemma NewGroup(groups: Groups, index: Entries<string, nat>, k: string, p: Pod)
    requires Indexed(groups, index) && k !in Keys(groups)
    ensures AddTo(groups, k, p) == groups + [(k, [p])]
    ensures Indexed(groups + [(k, [p])], index + [(k, |groups|)])
  {
    assert [] + [p] == [p];
  }

  lemma OldGroup(groups: Groups, index: Entries<string, nat>, i: nat, p: Pod)
    requires Indexed(groups, index) && i < |groups| && Distinct(Keys(groups))
    ensures AddTo(groups, groups[i].0, p) == groups[i := (groups[i].0, groups[i].1 + [p])]
    ensures Indexed(groups[i := (groups[i].0, groups[i].1 + [p])], index)
  {
    GetOfEntry(groups, i);
    PutAt(groups, i, groups[i].1 + [p]);
  }

  /** One pod into its group, which the index finds; the index keeps pace. */
  method AddPod(groups: Groups, index: Entries<string, nat>, k: string, p: Pod)
    returns (groups': Groups, index': Entries<string, nat>)
    requires Indexed(groups, index) && Distinct(Keys(groups))
    ensures groups' == AddTo(groups, k, p)
    ensures Indexed(groups', index') && Distinct(Keys(groups'))
  {
    IndexFinds(groups, index, k);
    AddToSpec(groups, k, p, k);
    var at := Get(index, k);
    if at.None? {
      NewGroup(groups, index, k, p);
      groups', index' := groups + [(k, [p])], index + [(k, |groups|)];
    } else {
      OldGroup(groups, index, at.value, p);
      groups', index' := groups[at.value := (k, groups[at.value].1 + [p])], index;
    }
  }

  function Lone(owner: Pod -> Option<string>): Pod -> bool { (p: Pod) => owner(p).None? }

  lemma PodNext(owner: Pod -> Option<string>, pods: seq<Pod>, n: nat)
    requires n < |pods|
    ensures var done, p := pods[..n], pods[n];
      && Grouped(owner, pods[..n + 1]) == (if owner(p).None? then Grouped(owner, done)
        else AddTo(Grouped(owner, done), owner(p).value, p))
      && Filter(Lone(owner), pods[..n + 1]) == Filter(Lone(owner), done) + if owner(p).None? then [p] else []
  {
    assert pods[..n + 1] == pods[..n] + [pods[n]];
    FilterAppend(Lone(owner), pods[..n], [pods[n]]);
    FilterOne(Lone(owner), pods[n]);
    GroupedNext(owner, pods[..n], pods[n]);
  }

  method GroupPods(owner: Pod -> Option<string>, pods: seq<Pod>) returns (groups: Groups, ungrouped: seq<Pod>)
    ensures groups == Grouped(owner, pods)
    ensures ungrouped == Filter(Lone(owner), pods)
  {
    groups, ungrouped := [], [];
    var index: Entries<string, nat> := [];
    for n := 0 to |pods|
      invariant groups == Grouped(owner, pods[..n]) && ungrouped == Filter(Lone(owner), pods[..n])
      invariant Indexed(groups, index) && Distinct(Keys(groups))
    {
      var p := pods[n];
      PodNext(owner, pods, n);
      var k := owner(p);
      if k.None? {
        ungrouped := ungrouped + [p];
      } else {
        groups, index := AddPod(groups, index, k.value, p);
      }
    }
    assert pods[..|pods|] == pods;
  }

  lemma {:induction false} GroupedNext(owner: Pod -> Option<string>, pods: seq<Pod>, p: Pod)
    ensures Grouped(owner, pods + [p]) == if owner(p).None? then Grouped(owner, pods)
      else AddTo(Grouped(owner, pods), owner(p).value, p)
  {
    assert (pods + [p])[..|pods|] == pods;
  }

  function OwnedBy(owner: Pod -> Option<string>, k: string): Pod -> bool { (p: Pod) => owner(p) == Some(k) }

  function OwnersOf(owner: Pod -> Option<string>): Pod -> seq<string> {
    (p: Pod) => if owner(p).Some? then [owner(p).value] else []
  }

  /** The group of a ReplicaSet holds exactly its pods, in their order. */
  lemma {:induction false} GroupHolds(owner: Pod -> Option<string>, pods: seq<Pod>, k: string)
    ensures Get(Grouped(owner, pods), k).GetOr([]) == Filter(OwnedBy(owner, k), pods)
    ensures Distinct(Keys(Grouped(owner, pods)))
  {
    if pods != [] {
      var before, p := pods[..|pods| - 1], pods[|pods| - 1];
      assert pods == before + [p];
      GroupHolds(owner, before, k);
      FilterAppend(OwnedBy(owner, k), before, [p]);
      FilterOne(OwnedBy(owner, k), p);
      if owner(p).Some? { AddToSpec(Grouped(owner, before), owner(p).value, p, k); }
    }
  }

  /**
   The groups come in the order in which the pods first name them.
   */
  lemma {:induction false} GroupOrder(owner: Pod -> Option<string>, pods: seq<Pod>)
    ensures Keys(Grouped(owner, pods)) == FirstSeen(FlatMap(OwnersOf(owner), pods))
  {
    if pods != [] {
      var before, p := pods[..|pods| - 1], pods[|pods| - 1];
      assert pods == before + [p];
      GroupOrder(owner, before);
      GroupHolds(owner, before, "");
      FlatMapAppend(OwnersOf(owner), before, [p]);
      assert FlatMap(OwnersOf(owner), [p]) == OwnersOf(owner)(p);
      if owner(p).Some? {
        AddToSpec(Grouped(owner, before), owner(p).value, p, "");
        FirstSeenNext(FlatMap(OwnersOf(owner), before), owner(p).value);
      } else {
        assert FlatMap(OwnersOf(owner), before) + [] == FlatMap(OwnersOf(owner), before);
      }
    }
  }

  // ------------------------------------------------------------ the order of the ReplicaSet list

  /** The place of the first pod of a ReplicaSet, or the number of pods where it has none. */
  function FirstPod(owner: Pod -> Option<string>, pods: seq<Pod>, k: string): (i: nat)
    ensures i <= |pods| && (i < |pods| ==> owner(pods[i]) == Some(k))
    ensures forall j :: 0 <= j < i ==> owner(pods[j]) != Some(k)
  {
    if pods == [] || owner(pods[0]) == Some(k) then 0
    else
      var i := FirstPod(owner, pods[1..], k);
      assert forall j :: 0 < j <= i ==> pods[j] == pods[1..][j - 1] || j == |pods|;
      i + 1
  }

  /** The ReplicaSets that own a pod. */
  function OwnsPod(owner: Pod -> Option<string>, pods: seq<Pod>): string -> bool {
    k => FirstPod(owner, pods, k) < |pods|
  }

  ghost predicate Climbs(rank: string -> nat, ks: seq<string>) {
    forall i, j :: 0 <= i < j < |ks| ==> rank(ks[i]) < rank(ks[j])
  }

  function Rank(owner: Pod -> Option<string>, pods: seq<Pod>): string -> nat { k => FirstPod(owner, pods, k) }

  lemma {:induction false} GroupedKeys(owner: Pod -> Option<string>, pods: seq<Pod>, p: Pod)
    ensures Keys(Grouped(owner, pods + [p])) ==
      var keys := Keys(Grouped(owner, pods));
      if owner(p).None? || owner(p).value in keys then keys else keys + [owner(p).value]
  {
    GroupedNext(owner, pods, p);
    if owner(p).Some? {
      GroupHolds(owner, pods, owner(p).value);
      AddToSpec(Grouped(owner, pods), owner(p).value, p, owner(p).value);
    }
  }

  /** A further pod is the first of its ReplicaSet or changes no first pod. */
  lemma {:induction false} FirstPodNext(owner: Pod -> Option<string>, pods: seq<Pod>, p: Pod, k: string)
    ensures var i := FirstPod(owner, pods, k);
      FirstPod(owner, pods + [p], k) == if i < |pods| || owner(p) == Some(k) then i else i + 1
  {
    var i, j := FirstPod(owner, pods, k), FirstPod(owner, pods + [p], k);
    assert forall n :: 0 <= n < |pods| ==> (pods + [p])[n] == pods[n];
    assert (pods + [p])[|pods|] == p;
  }

  /** The groups are those of the ReplicaSets with a pod, by first pod. */
  lemma {:induction false} GroupsClimb(owner: Pod -> Option<string>, pods: seq<Pod>)
    ensures Climbs(Rank(owner, pods), Keys(Grouped(owner, pods)))
    ensures forall k :: k in Keys(Grouped(owner, pods)) <==> OwnsPod(owner, pods)(k)
  {
    if pods != [] {
      var before, p := pods[..|pods| - 1], pods[|pods| - 1];
      assert pods == before + [p];
      GroupsClimb(owner, before);
      GroupedKeys(owner, before, p);
      forall k ensures FirstPod(owner, pods, k) ==
        FirstPod(owner, before, k) + if OwnsPod(owner, before)(k) || owner(p) == Some(k) then 0 else 1
      {
        FirstPodNext(owner, before, p, k);
      }
      ClimbOn(Rank(owner, before), Rank(owner, pods), Keys(Grouped(owner, before)), owner(p), |before|);
    }
  }

  /** Names below n stay in order, and a name of rank n may follow them. */
  lemma ClimbOn(rank: string -> nat, rank': string -> nat, ks: seq<string>, next: Option<string>, n: nat)
    requires Climbs(rank, ks) && forall k :: k in ks ==> rank'(k) == rank(k) < n
    requires next.Some? && next.value !in ks ==> rank'(next.value) == n
    ensures Climbs(rank', if next.None? || next.value in ks then ks else ks + [next.value])
  {
    assert forall i :: 0 <= i < |ks| ==> ks[i] in ks;
  }

  lemma {:induction false} SameClimb(rank: string -> nat, xs: seq<string>, ys: seq<string>)
    requires Climbs(rank, xs) && Climbs(rank, ys) && forall k :: k in xs <==> k in ys
    ensures xs == ys
  {
    FirstIn(xs);
    FirstIn(ys);
    if xs != [] {
      var i :| 0 <= i < |ys| && ys[i] == xs[0];
      var j :| 0 <= j < |xs| && xs[j] == ys[0];
      assert xs[0] == ys[0];
      ClimbsTail(rank, xs);
      ClimbsTail(rank, ys);
      SameClimb(rank, xs[1..], ys[1..]);
      assert xs == [xs[0]] + xs[1..] && ys == [ys[0]] + ys[1..];
    }
  }

  lemma FirstIn<T>(xs: seq<T>)
    ensures xs != [] ==> xs[0] in xs
  {
  }

  lemma ClimbsTail(rank: string -> nat, ks: seq<string>)
    requires Climbs(rank, ks) && ks != []
    ensures Climbs(rank, ks[1..]) && forall k :: k in ks[1..] <==> k in ks && k != ks[0]
  {
    assert ks == [ks[0]] + ks[1..];
    ClimbsCons(rank, ks[0], ks[1..]);
  }

  /** The names kept climb, in whatever places they are. */
  ghost predicate KeptClimb(rank: string -> nat, keep: string -> bool, ks: seq<string>) {
    forall i, j :: 0 <= i < j < |ks| && keep(ks[i]) && keep(ks[j]) ==> rank(ks[i]) < rank(ks[j])
  }

  lemma KeptClimbCons(rank: string -> nat, keep: string -> bool, k: string, ks: seq<string>)
    ensures KeptClimb(rank, keep, [k] + ks) <==>
      KeptClimb(rank, keep, ks) && (keep(k) ==> forall x :: x in ks && keep(x) ==> rank(k) < rank(x))
  {
    var all := [k] + ks;
    if KeptClimb(rank, keep, all) {
      forall i, j | 0 <= i < j < |ks| && keep(ks[i]) && keep(ks[j]) ensures rank(ks[i]) < rank(ks[j]) {
        assert all[i + 1] == ks[i] && all[j + 1] == ks[j];
      }
      forall x | x in ks && keep(k) && keep(x) ensures rank(k) < rank(x) {
        var i :| 0 <= i < |ks| && ks[i] == x;
        assert all[0] == k && all[i + 1] == x;
      }
    }
  }

  lemma ClimbsCons(rank: string -> nat, k: string, ks: seq<string>)
    ensures Climbs(rank, [k] + ks) <==> Climbs(rank, ks) && forall x :: x in ks ==> rank(k) < rank(x)
  {
    KeptClimbCons(rank, _ => true, k, ks);
  }

  lemma {:induction false} FilterClimbsIff(rank: string -> nat, keep: string -> bool, ks: seq<string>)
    ensures Climbs(rank, Filter(keep, ks)) <==> KeptClimb(rank, keep, ks)
  {
    if ks != [] {
      var k, rest := ks[0], ks[1..];
      FilterClimbsIff(rank, keep, rest);
      assert ks == [k] + rest;
      KeptClimbCons(rank, keep, k, rest);
      FilterCons(keep, k, rest);
      if keep(k) { ClimbsCons(rank, k, Filter(keep, rest)); }
    }
  }

  /**
   The groups come in the order of the ReplicaSet list, as the source's comment says they do, exactly
   when the pods already do: of two listed ReplicaSets with pods, the one listed first has the first pod.
   */
  lemma {:induction false} ListOrderIff(listed: seq<string>, pods: seq<Pod>)
    ensures
      var owner := GroupName(listed);
      var owns := OwnsPod(owner, pods);
      Keys(Grouped(owner, pods)) == Filter(owns, listed) <==>
        forall i, j :: 0 <= i < j < |listed| && owns(listed[i]) && owns(listed[j]) ==>
          FirstPod(owner, pods, listed[i]) < FirstPod(owner, pods, listed[j])
  {
    var owner := GroupName(listed);
    var owns, rank := OwnsPod(owner, pods), Rank(owner, pods);
    GroupsClimb(owner, pods);
    FilterClimbsIff(rank, owns, listed);
    forall k | owns(k) ensures k in listed { assert owner(pods[FirstPod(owner, pods, k)]) == Some(k); }
    if Climbs(rank, Filter(owns, listed)) { SameClimb(rank, Keys(Grouped(owner, pods)), Filter(owns, listed)); }
  }

  /** Listed a, b, with the pod of b first: the groups come as b, a. */
  lemma PodsOverrideTheList()
    ensures Keys(Grouped(GroupName(["a", "b"]), [Pod("p", "n", map[], Some("b")), Pod("q", "n", map[], Some("a"))])) ==
      ["b", "a"]
  {
    var owner := GroupName(["a", "b"]);
    var p, q := Pod("p", "n", map[], Some("b")), Pod("q", "n", map[], Some("a"));
    assert [] + [p] == [p] && [p] + [q] == [p, q];
    assert "a" in ["a", "b"] && "b" in ["a", "b"];
    GroupedKeys(owner, [], p);
    GroupedKeys(owner, [p], q);
  }

  /** The order of the ReplicaSet list does not reach the groups. */
  lemma ListOrderIsLost(listed: seq<string>, reordered: seq<string>, pods: seq<Pod>)
    requires forall k :: k in listed <==> k in reordered
    ensures Grouped(GroupName(listed), pods) == Grouped(GroupName(reordered), pods)
  {
    if pods != [] {
      ListOrderIsLost(listed, reordered, pods[..|pods| - 1]);
    }
  }

  // ------------------------------------------------------------ node ports

  /** The first `count` numbers from p to last that are not taken. */
  function FreePorts(taken: set<int>, p: int, last: int, count: nat): seq<int>
    decreases last - p + 1
  {
    if p > last || count == 0 then []
    else if p in taken then FreePorts(taken, p + 1, last, count)
    else [p] + FreePorts(taken, p + 1, last, count - 1)
  }

  method PickPorts(used: set<int>, first: int, last: int, count: nat) returns (out: seq<int>)
    ensures out == FreePorts(used, first, last, count)
  {
    var taken, p := used, first;
    out := [];
    while p <= last && |out| < count
      invariant |out| <= count
      invariant forall q :: q >= p ==> (q in taken <==> q in used)
      invariant out + FreePorts(used, p, last, count - |out|) == FreePorts(used, first, last, count)
      decreases last - p
    {
      if p !in taken {
        assert (out + [p]) + FreePorts(used, p + 1, last, count - |out| - 1) ==
          out + FreePorts(used, p, last, count - |out|);
        out, taken := out + [p], taken + {p};
      }
      p := p + 1;
    }
  }

  const NODE_PORT_MIN := 30000
  const NODE_PORT_MAX := 32767

  method SuggestNodePorts(used: set<int>, count: nat) returns (out: seq<int>)
    ensures out == FreePorts(used, NODE_PORT_MIN, NODE_PORT_MAX, count)
  {
    out := PickPorts(used, NODE_PORT_MIN, NODE_PORT_MAX, count);
  }

  lemma {:induction false} NoFreePortPassed(taken: set<int>, p: int, last: int, count: nat, q: int)
    requires p <= q <= last && q !in taken && q !in FreePorts(taken, p, last, count)
    ensures var out := FreePorts(taken, p, last, count); |out| == count && forall x :: x in out ==> x < q
    decreases last - p + 1
  {
    if count > 0 {
      if p in taken {
        NoFreePortPassed(taken, p + 1, last, count, q);
      } else {
        var rest := FreePorts(taken, p + 1, last, count - 1);
        assert forall x :: x in [p] + rest <==> x == p || x in rest;
        NoFreePortPassed(taken, p + 1, last, count - 1, q);
      }
    }
  }

  lemma {:induction false} FreePortsAscend(taken: set<int>, p: int, last: int, count: nat)
    ensures var out := FreePorts(taken, p, last, count);
      && |out| <= count
      && (forall i :: 0 <= i < |out| ==> p <= out[i] <= last && out[i] !in taken)
      && (forall i, j :: 0 <= i < j < |out| ==> out[i] < out[j])
    decreases last - p + 1
  {
    if p > last || count == 0 {
    } else if p in taken {
      FreePortsAscend(taken, p + 1, last, count);
    } else {
      FreePortsAscend(taken, p + 1, last, count - 1);
    }
  }

  /**
   The ports suggested are free, within range and increasing; a free port is passed over only for
   lower ones, and fewer than `count` come back only when no free port is left.
   */
  lemma {:induction false} FreePortsSpec(taken: set<int>, p: int, last: int, count: nat)
    ensures var out := FreePorts(taken, p, last, count);
      && |out| <= count
      && (forall i :: 0 <= i < |out| ==> p <= out[i] <= last && out[i] !in taken)
      && (forall i, j :: 0 <= i < j < |out| ==> out[i] < out[j])
      && (forall q :: p <= q <= last && q !in taken && q !in out ==> |out| == count && forall x :: x in out ==> x < q)
  {
    FreePortsAscend(taken, p, last, count);
    forall q | p <= q <= last && q !in taken && q !in FreePorts(taken, p, last, count) {
      NoFreePortPassed(taken, p, last, count, q);
    }
  }
}
