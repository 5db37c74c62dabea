/**
 Edits sent as JSON Merge Patches (section 2 of RFC 7396): the map diff and the PersistentVolume and
 StorageClass patches of src/composables/useStoragePatch.js, the IngressClass patch of
 src/composables/useClassPatch.js.
 */
module MergePatch {
  import opened Wrappers
  import opened Json
  import opened Maps

  /**
   MergePatch(Target, Patch) of the RFC; the target may be absent. `depth` is at least the nesting of
   the patch, and any such depth gives the same result (DepthIsEnough).
   */
  ghost function Merge(depth: nat, target: Option<Json>, patch: Json): Json
    decreases depth, 0, 0
  {
    if depth > 0 && patch.Obj? then
      var t := if target.Some? && target.value.Obj? then target.value.fields else map[];
      Obj(MergeFields(depth - 1, t, patch.fields))
    else patch
  }

  /** For each name of the patch: null removes it from the target, any other value is merged into it. */
  ghost function MergeFields(depth: nat, t: Fields, p: Fields): Fields
    decreases depth, 1, |p|
  {
    if p == map[] then t
    else
      var k := Pick(p.Keys);
      var rest := MergeFields(depth, t, p - {k});
      if p[k].Null? then rest - {k} else rest[k := Merge(depth, Field(t, k), p[k])]
  }

  /** The patch nests no deeper than that. */
  predicate Within(depth: nat, patch: Json) {
    patch.Obj? ==> depth > 0 && forall k :: k in patch.fields ==> Within(depth - 1, patch.fields[k])
  }

  lemma {:induction false} DepthIsEnough(d: nat, e: nat, target: Option<Json>, patch: Json)
    requires Within(d, patch) && d <= e
    ensures Merge(d, target, patch) == Merge(e, target, patch)
  {
    if patch.Obj? {
      var t := if target.Some? && target.value.Obj? then target.value.fields else map[];
      var p := patch.fields;
      var less, more := MergeFields(d - 1, t, p), MergeFields(e - 1, t, p);
      forall k ensures Field(less, k) == Field(more, k) {
        MergeField(d - 1, t, p, k);
        MergeField(e - 1, t, p, k);
        if k in p { DepthIsEnough(d - 1, e - 1, Field(t, k), p[k]); }
      }
      SameFields(less, more);
    }
  }

  /** What the merge leaves under one name; the order in which the names are taken does not matter. */
  lemma {:induction false} MergeField(depth: nat, t: Fields, p: Fields, k: string)
    ensures Field(MergeFields(depth, t, p), k) ==
      if k !in p then Field(t, k) else if p[k].Null? then None else Some(Merge(depth, Field(t, k), p[k]))
    decreases |p|
  {
    if p != map[] {
      MergeField(depth, t, p - {Pick(p.Keys)}, k);
    }
  }

  /** The labels or annotations of an object: all texts. */
  type Labels = m: Fields | forall k :: k in m ==> m[k].Str?

  // ------------------------------------------------------------ diffMap

  /**
   What every JavaScript object inherits and `in` therefore finds, of the names a label or annotation key
   can have.
   */
  predicate Inherited(k: string) {
    k in ["constructor", "toString", "toLocaleString", "valueOf", "hasOwnProperty", "isPrototypeOf",
      "propertyIsEnumerable"]
  }

  predicate Same(original: Labels, desired: Labels, k: string) {
    k in original && k in desired && original[k] == desired[k]
  }

  function Sets(original: Labels, desired: Labels): Labels {
    desired - set k | k in desired && Same(original, desired, k)
  }

  function Dropped(found: string -> bool, original: Labels, desired: Labels): set<string> {
    set k | k in original && k !in desired && !found(k)
  }

  /** What is set, and null for what is dropped. `found` tells the keys that `in` finds on every object. */
  ghost function Diff(found: string -> bool, original: Labels, desired: Labels): Fields {
    Sets(original, desired) + Constant(Dropped(found, original, desired), Null)
  }

  method SetKeys(original: Labels, desired: Labels) returns (out: Fields)
    ensures out == Sets(original, desired)
  {
    out := map[];
    var todo := desired.Keys;
    while todo != {}
      invariant todo <= desired.Keys
      invariant forall k :: k in out <==> k in desired && k !in todo && !Same(original, desired, k)
      invariant forall k :: k in out ==> out[k] == desired[k]
      decreases |todo|
    {
      var k :| k in todo;
      if !(k in original && original[k] == desired[k]) { out := out[k := desired[k]]; }
      todo := todo - {k};
    }
  }

  method DropKeys(found: string -> bool, original: Labels, desired: Labels) returns (out: Fields)
    ensures out == Constant(Dropped(found, original, desired), Null)
  {
    out := map[];
    var todo := original.Keys;
    while todo != {}
      invariant todo <= original.Keys
      invariant forall k :: k in out <==> k in original && k !in todo && k !in desired && !found(k)
      invariant forall k :: k in out ==> out[k] == Null
      decreases |todo|
    {
      var k :| k in todo;
      if !(k in desired || found(k)) { out := out[k := Null]; }
      todo := todo - {k};
    }
    ConstantUnique(out, Dropped(found, original, desired), Null);
  }

  method DiffMap(found: string -> bool, original: Labels, desired: Labels) returns (out: Fields)
    ensures out == Diff(found, original, desired)
  {
    out := SetKeys(original, desired);
    var dropped := DropKeys(found, original, desired);
    out := out + dropped;
  }

  /** The keys of a diff are keys on which the two maps differ. */
  lemma DiffIsMinimal(found: string -> bool, original: Labels, desired: Labels, k: string)
    requires k in Diff(found, original, desired)
    ensures Field(original, k) != Field(desired, k)
  {
  }

  /** No key to be dropped has a name found on every object. */
  predicate Droppable(found: string -> bool, original: Labels, desired: Labels) {
    forall k :: k in original && found(k) ==> k in desired
  }

  lemma DiffAt(found: string -> bool, original: Labels, desired: Labels, k: string)
    ensures Field(Diff(found, original, desired), k) ==
      if k in desired then (if Same(original, desired, k) then None else Some(desired[k]))
      else if k in original && !found(k) then Some(Null) else None
  {
  }

  /** One key after the diff is merged. */
  lemma {:induction false} DiffField(found: string -> bool, depth: nat, original: Labels, desired: Labels, k: string)
    ensures Field(MergeFields(depth, original, Diff(found, original, desired)), k) ==
      if k in desired then Some(desired[k]) else if k in original && found(k) then Some(original[k]) else None
  {
    MergeField(depth, original, Diff(found, original, desired), k);
    DiffAt(found, original, desired, k);
  }

  /**
   Merging the diff into the original gives the desired map exactly when no name found on every
   object is to be dropped: `k in desired` is true of those although the map has no such key.
   */
  lemma {:induction false} DiffAppliesIff(found: string -> bool, depth: nat, original: Labels, desired: Labels)
    ensures MergeFields(depth, original, Diff(found, original, desired)) == desired <==>
      Droppable(found, original, desired)
  {
    var after := MergeFields(depth, original, Diff(found, original, desired));
    forall k ensures Field(after, k) ==
      if k in desired then Some(desired[k]) else if k in original && found(k) then Some(original[k]) else None
    {
      DiffField(found, depth, original, desired, k);
    }
    if Droppable(found, original, desired) {
      SameFields(after, desired);
    } else {
      var k :| k in original && found(k) && k !in desired;
      assert Field(after, k).Some?;
    }
  }

  /** A diff that can drop what it must is empty exactly when the maps are equal. */
  lemma DiffEmptyIff(found: string -> bool, original: Labels, desired: Labels)
    requires Droppable(found, original, desired)
    ensures Diff(found, original, desired) == map[] <==> original == desired
  {
    var d := Diff(found, original, desired);
    forall k ensures (k in d) == (Field(original, k) != Field(desired, k)) {
      DiffAt(found, original, desired, k);
      assert k in d <==> Field(d, k).Some?;
    }
    if forall k :: Field(original, k) == Field(desired, k) {
      SameFields(original, desired);
    } else {
      var k :| Field(original, k) != Field(desired, k);
      assert k in d;
    }
  }

  /** A key named `constructor`, say, is never removed. */
  lemma InheritedNameStays()
    ensures Diff(Inherited, map["constructor" := Str("x")], map[]) == map[]
  {
    var m: Labels := map["constructor" := Str("x")];
    assert Inherited("constructor");
    assert Dropped(Inherited, m, map[]) == {};
    assert Sets(m, map[]) == map[];
  }

  /** None of the names every object inherits is ever removed. */
  lemma InheritedNamesStay(original: Labels, k: string)
    requires k in {"constructor", "toString", "toLocaleString", "valueOf", "hasOwnProperty", "isPrototypeOf",
      "propertyIsEnumerable"}
    ensures Field(Diff(Inherited, original, map[]), k).None?
  {
    DiffAt(Inherited, original, map[], k);
  }

  /** A key that is no inherited name is removed: `app`, say. */
  lemma OrdinaryNameGoes(original: Labels)
    requires "app" in original
    ensures Field(Diff(Inherited, original, map[]), "app") == Some(Null)
  {
    assert |"app"| == 3 && !Inherited("app");
    DiffAt(Inherited, original, map[], "app");
  }

  // ------------------------------------------------------------ putting a patch together

  function Section(key: string, p: Fields): Fields { if p == map[] then map[] else map[key := Obj(p)] }

  function MetaPatch(labels: Fields, annotations: Fields): Fields {
    Section("labels", labels) + Section("annotations", annotations)
  }

  /** null, or a patch with only the sections that have something in them. */
  function Assemble(spec: Fields, labels: Fields, annotations: Fields): Option<Json> {
    var patch := Section("spec", spec) + Section("metadata", MetaPatch(labels, annotations));
    if patch == map[] then None else Some(Obj(patch))
  }

  lemma AssembleNoneIff(spec: Fields, labels: Fields, annotations: Fields)
    ensures Assemble(spec, labels, annotations).None? <==> spec == map[] && labels == map[] && annotations == map[]
  {
    assert spec != map[] ==> "spec" in Section("spec", spec);
    assert labels != map[] ==> "labels" in MetaPatch(labels, annotations);
    assert annotations != map[] ==> "annotations" in MetaPatch(labels, annotations);
    var m := MetaPatch(labels, annotations);
    assert m != map[] ==> "metadata" in Section("metadata", m);
  }

  /** The object after the patch is sent, or as it was where there is none. */
  ghost function Apply(target: Fields, patch: Option<Json>): Fields {
    if patch.Some? && patch.value.Obj? then MergeFields(2, target, patch.value.fields) else target
  }

  lemma {:induction false} MergeNothing(depth: nat, t: Fields)
    ensures MergeFields(depth, t, map[]) == t
  {
    forall k ensures Field(MergeFields(depth, t, map[]), k) == Field(t, k) { MergeField(depth, t, map[], k); }
    SameFields(MergeFields(depth, t, map[]), t);
  }

  /** Nothing but texts and nulls, as in every section the builders make. */
  predicate Flat(p: Fields) { forall k :: k in p ==> p[k].Str? || p[k].Null? }

  lemma FlatSection(key: string, p: Fields)
    requires Flat(p)
    ensures forall k :: k in Section(key, p) ==> Within(1, Section(key, p)[k])
  {
  }

  lemma PatchWithin(spec: Fields, labels: Fields, annotations: Fields)
    requires Flat(spec) && Flat(labels) && Flat(annotations) && Assemble(spec, labels, annotations).Some?
    ensures Within(3, Assemble(spec, labels, annotations).value)
  {
    var meta := MetaPatch(labels, annotations);
    FlatSection("labels", labels);
    FlatSection("annotations", annotations);
    assert Within(2, Obj(meta));
    assert Within(2, Obj(spec)) by { assert forall k :: k in spec ==> Within(1, spec[k]); }
    var patch := Section("spec", spec) + Section("metadata", meta);
    assert forall k :: k in patch ==> patch[k] == Obj(spec) || patch[k] == Obj(meta);
  }

  /** Sending a patch of flat sections is merging it whole, at its nesting of three or any greater depth. */
  lemma ApplyIsWhole(depth: nat, target: Fields, spec: Fields, labels: Fields, annotations: Fields)
    requires Flat(spec) && Flat(labels) && Flat(annotations) && Assemble(spec, labels, annotations).Some? && depth >= 3
    ensures Obj(Apply(target, Assemble(spec, labels, annotations))) ==
      Merge(depth, Some(Obj(target)), Assemble(spec, labels, annotations).value)
  {
    PatchWithin(spec, labels, annotations);
    DepthIsEnough(3, depth, Some(Obj(target)), Assemble(spec, labels, annotations).value);
  }

  function ObjectAt(t: Fields, key: string): Fields {
    if key in t && t[key].Obj? then t[key].fields else map[]
  }

  /** Merging one section touches that key alone, and inside it does what the section says. */
  lemma {:induction false} MergeSections(depth: nat, t: Fields, a: string, pa: Fields, b: string, pb: Fields)
    requires a != b && depth > 0
    ensures var after := MergeFields(depth, t, Section(a, pa) + Section(b, pb));
      && (forall k :: k != a && k != b ==> Field(after, k) == Field(t, k))
      && ObjectAt(after, a) == MergeFields(depth - 1, ObjectAt(t, a), pa)
      && ObjectAt(after, b) == MergeFields(depth - 1, ObjectAt(t, b), pb)
      && (pa == map[] ==> Field(after, a) == Field(t, a)) && (pb == map[] ==> Field(after, b) == Field(t, b))
  {
    var p := Section(a, pa) + Section(b, pb);
    forall k ensures Field(MergeFields(depth, t, p), k) ==
      if k !in p then Field(t, k) else if p[k].Null? then None else Some(Merge(depth, Field(t, k), p[k]))
    {
      MergeField(depth, t, p, k);
    }
    MergeNothing(depth - 1, ObjectAt(t, a));
    MergeNothing(depth - 1, ObjectAt(t, b));
    assert a in p <==> pa != map[];
    assert b in p <==> pb != map[];
    assert Field(MergeFields(depth, t, p), a) == if a in p then Some(Merge(depth, Field(t, a), p[a])) else Field(t, a);
    assert Field(MergeFields(depth, t, p), b) == if b in p then Some(Merge(depth, Field(t, b), p[b])) else Field(t, b);
  }

  lemma {:induction false} ApplyIsMerge(target: Fields, spec: Fields, labels: Fields, annotations: Fields)
    ensures Apply(target, Assemble(spec, labels, annotations)) ==
      MergeFields(2, target, Section("spec", spec) + Section("metadata", MetaPatch(labels, annotations)))
  {
    MergeNothing(2, target);
  }

  /**
   Sending the assembled patch merges the spec section into the spec and leaves everything but spec and
   metadata alone.
   */
  lemma {:induction false} AppliesToSpec(target: Fields, spec: Fields, labels: Fields, annotations: Fields)
    ensures
      var after := Apply(target, Assemble(spec, labels, annotations));
      && (forall k :: k != "spec" && k != "metadata" ==> Field(after, k) == Field(target, k))
      && ObjectAt(after, "spec") == MergeFields(1, ObjectAt(target, "spec"), spec)
      && ObjectAt(after, "metadata") == MergeFields(1, ObjectAt(target, "metadata"), MetaPatch(labels, annotations))
  {
    ApplyIsMerge(target, spec, labels, annotations);
    MergeSections(2, target, "spec", spec, "metadata", MetaPatch(labels, annotations));
  }

  /** And it merges the labels and annotations into those of the metadata, and leaves the rest of that alone. */
  lemma {:induction false} AppliesToMetadata(target: Fields, spec: Fields, labels: Fields, annotations: Fields)
    ensures
      var meta, after := ObjectAt(target, "metadata"),
        ObjectAt(Apply(target, Assemble(spec, labels, annotations)), "metadata");
      && (forall k :: k != "labels" && k != "annotations" ==> Field(after, k) == Field(meta, k))
      && ObjectAt(after, "labels") == MergeFields(0, ObjectAt(meta, "labels"), labels)
      && ObjectAt(after, "annotations") == MergeFields(0, ObjectAt(meta, "annotations"), annotations)
  {
    AppliesToSpec(target, spec, labels, annotations);
    MergeSections(1, ObjectAt(target, "metadata"), "labels", labels, "annotations", annotations);
  }

  lemma AppliesToSpecField(target: Fields, spec: Fields, labels: Fields, annotations: Fields, k: string)
    requires k in spec ==> spec[k].Str?
    ensures Field(ObjectAt(Apply(target, Assemble(spec, labels, annotations)), "spec"), k) ==
      if k in spec then Some(spec[k]) else Field(ObjectAt(target, "spec"), k)
  {
    AppliesToSpec(target, spec, labels, annotations);
    MergeField(1, ObjectAt(target, "spec"), spec, k);
  }

  // ------------------------------------------------------------ PersistentVolume

  /** What the fetched volume says, as the mapper reads it. */
  datatype Pv = Pv(reclaimPolicy: string, labels: Labels, annotations: Labels)

  /** An edit: "" and None ask for nothing. */
  datatype PvEdit = PvEdit(reclaimPolicy: string, labels: Option<Labels>, annotations: Option<Labels>)

  ghost function DiffIf(found: string -> bool, original: Labels, desired: Option<Labels>): Fields {
    if desired.Some? then Diff(found, original, desired.value) else map[]
  }

  function PolicyPatch(pv: Pv, e: PvEdit): Fields {
    if e.reclaimPolicy != "" && e.reclaimPolicy != pv.reclaimPolicy
      then map["persistentVolumeReclaimPolicy" := Str(e.reclaimPolicy)] else map[]
  }

  ghost function BuildPv(found: string -> bool, pv: Pv, e: PvEdit): Option<Json> {
    Assemble(PolicyPatch(pv, e), DiffIf(found, pv.labels, e.labels), DiffIf(found, pv.annotations, e.annotations))
  }

  method BuildPVPatch(found: string -> bool, pv: Pv, e: PvEdit) returns (patch: Option<Json>)
    ensures patch == BuildPv(found, pv, e)
  {
    var labels, annotations: Fields := map[], map[];
    if e.labels.Some? { labels := DiffMap(found, pv.labels, e.labels.value); }
    if e.annotations.Some? { annotations := DiffMap(found, pv.annotations, e.annotations.value); }
    patch := Assemble(PolicyPatch(pv, e), labels, annotations);
  }

  predicate CanDrop(found: string -> bool, original: Labels, desired: Option<Labels>) {
    desired.Some? ==> Droppable(found, original, desired.value)
  }

  lemma {:induction false} DiffIfApplies(found: string -> bool, original: Labels, desired: Option<Labels>)
    requires CanDrop(found, original, desired)
    ensures MergeFields(0, original, DiffIf(found, original, desired)) == desired.GetOr(original)
    ensures DiffIf(found, original, desired) == map[] <==> desired.GetOr(original) == original
  {
    if desired.Some? {
      DiffAppliesIff(found, 0, original, desired.value);
      DiffEmptyIff(found, original, desired.value);
    } else {
      MergeNothing(0, original);
    }
  }

  /** No patch is sent exactly when what is asked for is what is there. */
  lemma PvPatchNoneIff(found: string -> bool, pv: Pv, e: PvEdit)
    requires CanDrop(found, pv.labels, e.labels) && CanDrop(found, pv.annotations, e.annotations)
    ensures BuildPv(found, pv, e).None? <==>
      && (e.reclaimPolicy == "" || e.reclaimPolicy == pv.reclaimPolicy)
      && e.labels.GetOr(pv.labels) == pv.labels && e.annotations.GetOr(pv.annotations) == pv.annotations
  {
    DiffIfApplies(found, pv.labels, e.labels);
    DiffIfApplies(found, pv.annotations, e.annotations);
    var asked := e.reclaimPolicy != "" && e.reclaimPolicy != pv.reclaimPolicy;
    assert asked ==> "persistentVolumeReclaimPolicy" in PolicyPatch(pv, e);
    AssembleNoneIff(PolicyPatch(pv, e), DiffIf(found, pv.labels, e.labels),
      DiffIf(found, pv.annotations, e.annotations));
  }

  /** The object is the one that was fetched. */
  predicate Fetched(target: Fields, labels: Labels, annotations: Labels) {
    && ObjectAt(ObjectAt(target, "metadata"), "labels") == labels
    && ObjectAt(ObjectAt(target, "metadata"), "annotations") == annotations
  }

  /**
   After the patch the volume has the labels, annotations and reclaim policy asked for, and is
   otherwise as it was, field by field.
   */
  lemma PvPatchApplies(found: string -> bool, target: Fields, pv: Pv, e: PvEdit)
    requires CanDrop(found, pv.labels, e.labels) && CanDrop(found, pv.annotations, e.annotations)
    requires Fetched(target, pv.labels, pv.annotations)
    ensures
      var after := Apply(target, BuildPv(found, pv, e));
      && Fetched(after, e.labels.GetOr(pv.labels), e.annotations.GetOr(pv.annotations))
      && (forall k :: k != "spec" && k != "metadata" ==> Field(after, k) == Field(target, k))
      && (forall k :: k != "labels" && k != "annotations" ==>
            Field(ObjectAt(after, "metadata"), k) == Field(ObjectAt(target, "metadata"), k))
      && (forall k :: Field(ObjectAt(after, "spec"), k) ==
            if k in PolicyPatch(pv, e) then Some(Str(e.reclaimPolicy)) else Field(ObjectAt(target, "spec"), k))
  {
    var spec, labels, annotations := PolicyPatch(pv, e), DiffIf(found, pv.labels, e.labels),
      DiffIf(found, pv.annotations, e.annotations);
    AppliesToSpec(target, spec, labels, annotations);
    AppliesToMetadata(target, spec, labels, annotations);
    DiffIfApplies(found, pv.labels, e.labels);
    DiffIfApplies(found, pv.annotations, e.annotations);
    forall k { AppliesToSpecField(target, spec, labels, annotations, k); }
  }

  // ------------------------------------------------------------ default-class annotations

  function Minus(m: Labels, keys: set<string>): Labels { m - keys }

  /** What is put under the default-class keys: a text, or null to remove. */
  type DefaultEdit = m: Fields | forall k :: k in m ==> m[k].Str? || m[k].Null?

  /** The default keys first, and over them the diff of the other annotations against those asked for. */
  ghost function AnnotationPatch(found: string -> bool, keys: set<string>, d: DefaultEdit, original: Labels,
      desired: Option<Labels>): Fields
  {
    d + DiffIf(found, Minus(original, keys), desired)
  }

  function Removal(v: Json): Option<Json> { if v.Null? then None else Some(v) }

  /** One annotation after the edit: as asked for, else as the default edit says, else kept if nothing governs it. */
  function AnnotationAfter(keys: set<string>, d: DefaultEdit, original: Labels, desired: Option<Labels>,
      k: string): Option<Json>
  {
    if desired.Some? && k in desired.value then Some(desired.value[k])
    else if k in d then Removal(d[k])
    else if k in keys || desired.None? then Field(original, k)
    else None
  }

  lemma {:induction false} AnnotationPatchApplies(found: string -> bool, keys: set<string>, d: DefaultEdit,
      original: Labels, desired: Option<Labels>, k: string)
    requires d.Keys <= keys && CanDrop(found, Minus(original, keys), desired)
    ensures Field(MergeFields(0, original, AnnotationPatch(found, keys, d, original, desired)), k) ==
      AnnotationAfter(keys, d, original, desired, k)
  {
    MergeField(0, original, AnnotationPatch(found, keys, d, original, desired), k);
    if desired.Some? { DiffAt(found, Minus(original, keys), desired.value, k); }
  }

  /** An edit of the default keys that each time changes what is there. */
  predicate Effective(d: DefaultEdit, original: Labels) { forall k :: k in d ==> Removal(d[k]) != Field(original, k) }

  /**
   Nothing is put in the annotation patch exactly when every annotation stays as it is and the default
   keys are not among those asked for: asking for a default key always makes a patch.
   */
  lemma AnnotationPatchEmptyIff(found: string -> bool, keys: set<string>, d: DefaultEdit, original: Labels,
      desired: Option<Labels>)
    requires d.Keys <= keys && CanDrop(found, Minus(original, keys), desired) && Effective(d, original)
    ensures AnnotationPatch(found, keys, d, original, desired) == map[] <==>
      && (forall k :: AnnotationAfter(keys, d, original, desired, k) == Field(original, k))
      && (desired.Some? ==> forall k :: k in keys ==> k !in desired.value)
  {
    var rest := Minus(original, keys);
    var p := AnnotationPatch(found, keys, d, original, desired);
    forall k ensures (k in p) == (k in d || (desired.Some? && Field(rest, k) != Field(desired.value, k))) {
      if desired.Some? {
        DiffAt(found, rest, desired.value, k);
        assert k in DiffIf(found, rest, desired) <==> Field(DiffIf(found, rest, desired), k).Some?;
      }
    }
    if p == map[] {
      forall k ensures AnnotationAfter(keys, d, original, desired, k) == Field(original, k) { assert k !in p; }
      forall k | desired.Some? && k in keys ensures k !in desired.value { assert k !in p; }
    } else {
      var k :| k in p;
      assert k in d && !(desired.Some? && k in desired.value) ==>
        AnnotationAfter(keys, d, original, desired, k) != Field(original, k);
      assert k !in d && k !in keys ==> AnnotationAfter(keys, d, original, desired, k) != Field(original, k);
    }
  }

  // ------------------------------------------------------------ IngressClass

  const IC_KEY := "ingressclass.kubernetes.io/is-default-class"

  datatype Ic = Ic(controller: string, labels: Labels, annotations: Labels)

  /** Unasked is undefined, Clear is null. */
  datatype Ask = Unasked | Clear | Ask(value: bool)

  datatype IcEdit = IcEdit(isDefault: Ask, controller: Option<string>, labels: Option<Labels>,
    annotations: Option<Labels>)

  predicate IsDefaultIc(ic: Ic) { Field(ic.annotations, IC_KEY) == Some(Str("true")) }

  function IcDefault(ic: Ic, ask: Ask): DefaultEdit {
    match ask
    case Unasked => map[]
    case Clear => if IsDefaultIc(ic) then map[IC_KEY := Null] else map[]
    case Ask(value) => if value != IsDefaultIc(ic) then map[IC_KEY := if value then Str("true") else Null] else map[]
  }

  function ControllerPatch(ic: Ic, e: IcEdit): Fields {
    if e.controller.Some? && e.controller.value != ic.controller then map["controller" := Str(e.controller.value)]
    else map[]
  }

  ghost function IcAnnotations(found: string -> bool, ic: Ic, e: IcEdit): Fields {
    AnnotationPatch(found, {IC_KEY}, IcDefault(ic, e.isDefault), ic.annotations, e.annotations)
  }

  ghost function BuildIc(found: string -> bool, ic: Ic, e: IcEdit): Option<Json> {
    Assemble(ControllerPatch(ic, e), DiffIf(found, ic.labels, e.labels), IcAnnotations(found, ic, e))
  }

  method BuildIngressClassPatch(found: string -> bool, ic: Ic, e: IcEdit) returns (patch: Option<Json>)
    ensures patch == BuildIc(found, ic, e)
  {
    var annotations: Fields := IcDefault(ic, e.isDefault);
    assert annotations + map[] == annotations;
    if e.annotations.Some? {
      var ap := DiffMap(found, Minus(ic.annotations, {IC_KEY}), e.annotations.value);
      annotations := annotations + ap;
    }
    var labels: Fields := map[];
    if e.labels.Some? { labels := DiffMap(found, ic.labels, e.labels.value); }
    patch := Assemble(ControllerPatch(ic, e), labels, annotations);
  }

  function IcAnnotationAfter(ic: Ic, e: IcEdit, k: string): Option<Json> {
    AnnotationAfter({IC_KEY}, IcDefault(ic, e.isDefault), ic.annotations, e.annotations, k)
  }

  predicate IcCanDrop(found: string -> bool, ic: Ic, e: IcEdit) {
    CanDrop(found, ic.labels, e.labels) && CanDrop(found, Minus(ic.annotations, {IC_KEY}), e.annotations)
  }

  lemma IcDefaultEffective(ic: Ic, ask: Ask)
    ensures Effective(IcDefault(ic, ask), ic.annotations) && IcDefault(ic, ask).Keys <= {IC_KEY}
  {
  }

  /**
   No patch is sent exactly when the edit changes nothing and does not list the default key among the
   annotations; listing it makes a patch even where the value is the one already there.
   */
  lemma IcPatchNoneIff(found: string -> bool, ic: Ic, e: IcEdit)
    requires IcCanDrop(found, ic, e)
    ensures BuildIc(found, ic, e).None? <==>
      && e.controller.GetOr(ic.controller) == ic.controller
      && e.labels.GetOr(ic.labels) == ic.labels
      && (forall k :: IcAnnotationAfter(ic, e, k) == Field(ic.annotations, k))
      && (e.annotations.Some? ==> IC_KEY !in e.annotations.value)
  {
    IcDefaultEffective(ic, e.isDefault);
    DiffIfApplies(found, ic.labels, e.labels);
    AnnotationPatchEmptyIff(found, {IC_KEY}, IcDefault(ic, e.isDefault), ic.annotations, e.annotations);
    AssembleNoneIff(ControllerPatch(ic, e), DiffIf(found, ic.labels, e.labels), IcAnnotations(found, ic, e));
    assert e.controller.GetOr(ic.controller) != ic.controller ==> "controller" in ControllerPatch(ic, e);
  }

  /** After the patch the class has the labels and annotations asked for, and its metadata is otherwise as it was. */
  lemma IcPatchApplies(found: string -> bool, target: Fields, ic: Ic, e: IcEdit)
    requires IcCanDrop(found, ic, e) && Fetched(target, ic.labels, ic.annotations)
    ensures
      var meta := ObjectAt(Apply(target, BuildIc(found, ic, e)), "metadata");
      && ObjectAt(meta, "labels") == e.labels.GetOr(ic.labels)
      && (forall k :: Field(ObjectAt(meta, "annotations"), k) == IcAnnotationAfter(ic, e, k))
      && (forall k :: k != "labels" && k != "annotations" ==> Field(meta, k) == Field(ObjectAt(target, "metadata"), k))
  {
    var spec, labels, annotations := ControllerPatch(ic, e), DiffIf(found, ic.labels, e.labels),
      IcAnnotations(found, ic, e);
    AppliesToMetadata(target, spec, labels, annotations);
    DiffIfApplies(found, ic.labels, e.labels);
    IcDefaultEffective(ic, e.isDefault);
    forall k { AnnotationPatchApplies(found, {IC_KEY}, IcDefault(ic, e.isDefault), ic.annotations, e.annotations, k); }
  }

  /** Of the spec only the controller can change, and to the one asked for; the rest of the object stays. */
  lemma IcPatchLeavesTheRest(found: string -> bool, target: Fields, ic: Ic, e: IcEdit, k: string)
    ensures
      var after := Apply(target, BuildIc(found, ic, e));
      && (k != "spec" && k != "metadata" ==> Field(after, k) == Field(target, k))
      && (Field(ObjectAt(after, "spec"), k) ==
            if k in ControllerPatch(ic, e) then Some(Str(e.controller.value)) else Field(ObjectAt(target, "spec"), k))
  {
    AppliesToSpec(target, ControllerPatch(ic, e), DiffIf(found, ic.labels, e.labels), IcAnnotations(found, ic, e));
    AppliesToSpecField(target, ControllerPatch(ic, e), DiffIf(found, ic.labels, e.labels), IcAnnotations(found, ic, e),
      k);
  }

  // ------------------------------------------------------------ StorageClass

  const SC_KEY := "storageclass.kubernetes.io/is-default-class"
  const SC_BETA_KEY := "storageclass.beta.kubernetes.io/is-default-class"

  datatype Sc = Sc(labels: Labels, annotations: Labels)

  datatype ScEdit = ScEdit(isDefault: Option<bool>, labels: Option<Labels>, annotations: Option<Labels>)

  /** Either key marks the default. */
  predicate IsDefaultSc(annotations: Labels) {
    Field(annotations, SC_KEY) == Some(Str("true")) || Field(annotations, SC_BETA_KEY) == Some(Str("true"))
  }

  function ScDefault(sc: Sc, ask: Option<bool>): DefaultEdit {
    if ask.Some? && ask.value != IsDefaultSc(sc.annotations)
      then map[SC_KEY := Str(if ask.value then "true" else "false")] else map[]
  }

  ghost function ScAnnotations(found: string -> bool, sc: Sc, e: ScEdit): Fields {
    AnnotationPatch(found, {SC_KEY, SC_BETA_KEY}, ScDefault(sc, e.isDefault), sc.annotations, e.annotations)
  }

  ghost function BuildSc(found: string -> bool, sc: Sc, e: ScEdit): Option<Json> {
    Assemble(map[], DiffIf(found, sc.labels, e.labels), ScAnnotations(found, sc, e))
  }

  method BuildStorageClassPatch(found: string -> bool, sc: Sc, e: ScEdit) returns (patch: Option<Json>)
    ensures patch == BuildSc(found, sc, e)
  {
    var annotations: Fields := ScDefault(sc, e.isDefault);
    assert annotations + map[] == annotations;
    if e.annotations.Some? {
      var ap := DiffMap(found, Minus(sc.annotations, {SC_KEY, SC_BETA_KEY}), e.annotations.value);
      annotations := annotations + ap;
    }
    var labels: Fields := map[];
    if e.labels.Some? { labels := DiffMap(found, sc.labels, e.labels.value); }
    patch := Assemble(map[], labels, annotations);
  }

  function ScAnnotationAfter(sc: Sc, e: ScEdit, k: string): Option<Json> {
    AnnotationAfter({SC_KEY, SC_BETA_KEY}, ScDefault(sc, e.isDefault), sc.annotations, e.annotations, k)
  }

  /** After the patch the class has the labels and annotations asked for, and its metadata is otherwise as it was. */
  lemma ScPatchApplies(found: string -> bool, target: Fields, sc: Sc, e: ScEdit)
    requires CanDrop(found, sc.labels, e.labels) &&
      CanDrop(found, Minus(sc.annotations, {SC_KEY, SC_BETA_KEY}), e.annotations)
    requires Fetched(target, sc.labels, sc.annotations)
    ensures
      var meta := ObjectAt(Apply(target, BuildSc(found, sc, e)), "metadata");
      && ObjectAt(meta, "labels") == e.labels.GetOr(sc.labels)
      && (forall k :: Field(ObjectAt(meta, "annotations"), k) == ScAnnotationAfter(sc, e, k))
      && (forall k :: k != "labels" && k != "annotations" ==> Field(meta, k) == Field(ObjectAt(target, "metadata"), k))
  {
    var labels, annotations := DiffIf(found, sc.labels, e.labels), ScAnnotations(found, sc, e);
    AppliesToMetadata(target, map[], labels, annotations);
    DiffIfApplies(found, sc.labels, e.labels);
    forall k {
      AnnotationPatchApplies(found, {SC_KEY, SC_BETA_KEY}, ScDefault(sc, e.isDefault), sc.annotations, e.annotations,
        k);
    }
  }

  /** The mapper's reading of the class after the patch. */
  predicate DefaultAfter(sc: Sc, e: ScEdit) {
    || ScAnnotationAfter(sc, e, SC_KEY) == Some(Str("true"))
    || ScAnnotationAfter(sc, e, SC_BETA_KEY) == Some(Str("true"))
  }

  predicate Listed(e: ScEdit, k: string) { e.annotations.Some? && k in e.annotations.value }

  predicate ListedTrue(e: ScEdit, k: string) { Listed(e, k) && e.annotations.value[k] == Str("true") }

  predicate SaysTrue(sc: Sc, k: string) { Field(sc.annotations, k) == Some(Str("true")) }

  /** The switch does not touch the beta key: it says "true" in the end if it is listed so, or not listed and did. */
  predicate BetaEndsTrue(sc: Sc, e: ScEdit) {
    if Listed(e, SC_BETA_KEY) then ListedTrue(e, SC_BETA_KEY) else SaysTrue(sc, SC_BETA_KEY)
  }

  lemma TheTwoKeys()
    ensures SC_KEY != SC_BETA_KEY
  {
    assert SC_KEY[12] != SC_BETA_KEY[12] || SC_KEY[13] != SC_BETA_KEY[13];
  }

  /**
   Whether the default switch takes effect, whatever annotations are asked for with it. A key that is
   listed among them wins over the switch, and the switch writes only the first key, and that only if the
   class is not already as asked. Switched off, the class stays the default exactly when the first key is
   listed as "true" or the beta key ends as "true". Switched on, it becomes or stays the default exactly
   when the beta key ends as "true", or the first key is listed as "true", or is not listed and was "true"
   or is written.
   */
  lemma ScDefaultTakesIff(sc: Sc, e: ScEdit)
    requires e.isDefault.Some?
    ensures DefaultAfter(sc, e) == e.isDefault.value <==>
      if e.isDefault.value then
        || BetaEndsTrue(sc, e)
        || if Listed(e, SC_KEY) then ListedTrue(e, SC_KEY) else SaysTrue(sc, SC_KEY) || !IsDefaultSc(sc.annotations)
      else !ListedTrue(e, SC_KEY) && !BetaEndsTrue(sc, e)
  {
    TheTwoKeys();
  }

  /** Where neither key is listed, the only failure is switching off a class whose beta key says "true". */
  lemma UnlistedDefaultTakesIff(sc: Sc, e: ScEdit)
    requires e.isDefault.Some? && !Listed(e, SC_KEY) && !Listed(e, SC_BETA_KEY)
    ensures DefaultAfter(sc, e) == e.isDefault.value <==> e.isDefault.value || !SaysTrue(sc, SC_BETA_KEY)
  {
    ScDefaultTakesIff(sc, e);
  }

  /**
   No patch is sent exactly when the class is already the default or not as asked, and has the labels
   and, beside the default keys, the annotations asked for.
   */
  lemma ScPatchNoneIff(found: string -> bool, sc: Sc, e: ScEdit)
    requires CanDrop(found, sc.labels, e.labels) &&
      CanDrop(found, Minus(sc.annotations, {SC_KEY, SC_BETA_KEY}), e.annotations)
    ensures BuildSc(found, sc, e).None? <==>
      && e.isDefault.GetOr(IsDefaultSc(sc.annotations)) == IsDefaultSc(sc.annotations)
      && e.labels.GetOr(sc.labels) == sc.labels
      && e.annotations.GetOr(Minus(sc.annotations, {SC_KEY, SC_BETA_KEY})) ==
        Minus(sc.annotations, {SC_KEY, SC_BETA_KEY})
  {
    var d, diff := ScDefault(sc, e.isDefault),
      DiffIf(found, Minus(sc.annotations, {SC_KEY, SC_BETA_KEY}), e.annotations);
    DiffIfApplies(found, sc.labels, e.labels);
    DiffIfApplies(found, Minus(sc.annotations, {SC_KEY, SC_BETA_KEY}), e.annotations);
    AssembleNoneIff(map[], DiffIf(found, sc.labels, e.labels), ScAnnotations(found, sc, e));
    assert d != map[] <==> SC_KEY in d;
    assert d + diff == map[] <==> d == map[] && diff == map[] by {
      assert forall k :: k in d || k in diff <==> k in d + diff;
      assert diff != map[] ==> exists k :: k in diff;
    }
  }

  const BETA_DEFAULT: Sc := Sc(map[], map[SC_BETA_KEY := Str("true")])

  /** A class that is the default by its beta key is unset: the patch is sent, and the class is still the default. */
  lemma BetaDefaultStays(found: string -> bool)
    ensures
      var e := ScEdit(Some(false), None, None);
      && BuildSc(found, BETA_DEFAULT, e).Some?
      && ScAnnotationAfter(BETA_DEFAULT, e, SC_KEY) == Some(Str("false"))
      && ScAnnotationAfter(BETA_DEFAULT, e, SC_BETA_KEY) == Some(Str("true"))
  {
    ScPatchNoneIff(found, BETA_DEFAULT, ScEdit(Some(false), None, None));
    TheTwoKeys();
  }

  /**
   A class that is the default is switched off while its annotations list the first key as "true": it stays
   the default.
   */
  lemma ListedKeyBeatsTheSwitch()
    ensures
      var sc, e := Sc(map[], map[SC_KEY := Str("true")]), ScEdit(Some(false), None, Some(map[SC_KEY := Str("true")]));
      IsDefaultSc(sc.annotations) && DefaultAfter(sc, e)
  {
    TheTwoKeys();
  }

  /**
   A class that is the default by its beta key alone is kept on while that key is listed as "false": it
   ends as no default.
   */
  lemma ListedBetaBeatsTheSwitch()
    ensures
      var e := ScEdit(Some(true), None, Some(map[SC_BETA_KEY := Str("false")]));
      IsDefaultSc(BETA_DEFAULT.annotations) && !DefaultAfter(BETA_DEFAULT, e)
  {
    TheTwoKeys();
  }

  // ------------------------------------------------------------ every builder's sections are flat

  lemma DiffIsFlat(found: string -> bool, original: Labels, desired: Option<Labels>)
    ensures Flat(DiffIf(found, original, desired))
  {
    if desired.Some? {
      forall k { DiffAt(found, original, desired.value, k); }
    }
  }

  /** So what PvPatchApplies says of Apply holds of the whole merge at any sufficient depth. */
  lemma PvPatchIsMerged(found: string -> bool, depth: nat, target: Fields, pv: Pv, e: PvEdit)
    requires depth >= 3 && BuildPv(found, pv, e).Some?
    ensures Obj(Apply(target, BuildPv(found, pv, e))) == Merge(depth, Some(Obj(target)), BuildPv(found, pv, e).value)
  {
    DiffIsFlat(found, pv.labels, e.labels);
    DiffIsFlat(found, pv.annotations, e.annotations);
    ApplyIsWhole(depth, target, PolicyPatch(pv, e), DiffIf(found, pv.labels, e.labels),
      DiffIf(found, pv.annotations, e.annotations));
  }

  lemma IcPatchIsMerged(found: string -> bool, depth: nat, target: Fields, ic: Ic, e: IcEdit)
    requires depth >= 3 && BuildIc(found, ic, e).Some?
    ensures Obj(Apply(target, BuildIc(found, ic, e))) == Merge(depth, Some(Obj(target)), BuildIc(found, ic, e).value)
  {
    DiffIsFlat(found, ic.labels, e.labels);
    DiffIsFlat(found, Minus(ic.annotations, {IC_KEY}), e.annotations);
    ApplyIsWhole(depth, target, ControllerPatch(ic, e), DiffIf(found, ic.labels, e.labels),
      IcAnnotations(found, ic, e));
  }

  lemma ScPatchIsMerged(found: string -> bool, depth: nat, target: Fields, sc: Sc, e: ScEdit)
    requires depth >= 3 && BuildSc(found, sc, e).Some?
    ensures Obj(Apply(target, BuildSc(found, sc, e))) == Merge(depth, Some(Obj(target)), BuildSc(found, sc, e).value)
  {
    DiffIsFlat(found, sc.labels, e.labels);
    DiffIsFlat(found, Minus(sc.annotations, {SC_KEY, SC_BETA_KEY}), e.annotations);
    ApplyIsWhole(depth, target, map[], DiffIf(found, sc.labels, e.labels), ScAnnotations(found, sc, e));
  }
}
