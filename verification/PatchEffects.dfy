/**
 What the patches of src/composables/useStoragePatch.js and useClassPatch.js leave behind, read off the
 patched object by the keys of the Kubernetes API.
 */
module PatchEffects {
  import opened Wrappers
  import opened Json
  import opened MergePatch

  function Labeled(resource: Fields): Fields { ObjectAt(ObjectAt(resource, "metadata"), "labels") }

  function Annotated(resource: Fields): Fields { ObjectAt(ObjectAt(resource, "metadata"), "annotations") }

  function SpecOf(resource: Fields): Fields { ObjectAt(resource, "spec") }

  /** The edit drops no key whose name every object inherits. */
  predicate Removable(found: string -> bool, original: Labels, desired: Option<Labels>) {
    desired.Some? ==> forall k :: k in original && k !in desired.value ==> !found(k)
  }

  /** A volume's reclaim policy becomes the one asked for; the rest of its spec stays. */
  lemma PolicyAsAsked(found: string -> bool, target: Fields, pv: Pv, e: PvEdit, k: string)
    requires Field(SpecOf(target), "persistentVolumeReclaimPolicy") == Some(Str(pv.reclaimPolicy))
    ensures
      var after := Apply(target, BuildPv(found, pv, e));
      Field(SpecOf(after), k) ==
      if k == "persistentVolumeReclaimPolicy" && e.reclaimPolicy != "" then Some(Str(e.reclaimPolicy))
      else Field(SpecOf(target), k)
  {
    AppliesToSpecField(target, PolicyPatch(pv, e), DiffIf(found, pv.labels, e.labels),
      DiffIf(found, pv.annotations, e.annotations), k);
  }

  /** Its labels and annotations become those asked for, where any are. */
  lemma VolumeMetadataAsAsked(found: string -> bool, target: Fields, pv: Pv, e: PvEdit)
    requires Labeled(target) == pv.labels && Annotated(target) == pv.annotations
    requires Removable(found, pv.labels, e.labels) && Removable(found, pv.annotations, e.annotations)
    ensures
      var after := Apply(target, BuildPv(found, pv, e));
      && Labeled(after) == (if e.labels.Some? then e.labels.value else pv.labels)
      && Annotated(after) == (if e.annotations.Some? then e.annotations.value else pv.annotations)
  {
    PvPatchApplies(found, target, pv, e);
  }

  /** An ingress class's controller becomes the one asked for; the rest of its spec stays. */
  lemma ControllerAsAsked(found: string -> bool, target: Fields, ic: Ic, e: IcEdit, k: string)
    requires Field(SpecOf(target), "controller") == Some(Str(ic.controller))
    ensures
      var after := Apply(target, BuildIc(found, ic, e));
      Field(SpecOf(after), k) ==
      if k == "controller" && e.controller.Some? then Some(Str(e.controller.value)) else Field(SpecOf(target), k)
  {
    IcPatchLeavesTheRest(found, target, ic, e, k);
  }

  const IC_DEFAULT := "ingressclass.kubernetes.io/is-default-class"

  /** Its labels become those asked for, where any are. */
  lemma ClassLabelsAsAsked(found: string -> bool, target: Fields, ic: Ic, e: IcEdit)
    requires Labeled(target) == ic.labels && Annotated(target) == ic.annotations
    requires Removable(found, ic.labels, e.labels) && Removable(found, ic.annotations - {IC_DEFAULT}, e.annotations)
    ensures Labeled(Apply(target, BuildIc(found, ic, e))) == e.labels.GetOr(ic.labels)
  {
    IcPatchApplies(found, target, ic, e);
  }

  lemma OtherAnnotation(ic: Ic, e: IcEdit, k: string)
    requires k != IC_DEFAULT
    ensures IcAnnotationAfter(ic, e, k) == Field(e.annotations.GetOr(ic.annotations), k)
  {
    IcDefaultEffective(ic, e.isDefault);
    assert k !in IcDefault(ic, e.isDefault);
  }

  lemma AnnotationRead(found: string -> bool, target: Fields, ic: Ic, e: IcEdit, k: string)
    requires Labeled(target) == ic.labels && Annotated(target) == ic.annotations
    requires Removable(found, ic.labels, e.labels) && Removable(found, ic.annotations - {IC_DEFAULT}, e.annotations)
    ensures Field(Annotated(Apply(target, BuildIc(found, ic, e))), k) == IcAnnotationAfter(ic, e, k)
  {
    IcPatchApplies(found, target, ic, e);
  }

  /** So do its annotations beside the default mark. */
  lemma ClassAnnotationAsAsked(found: string -> bool, target: Fields, ic: Ic, e: IcEdit, k: string)
    requires Labeled(target) == ic.labels && Annotated(target) == ic.annotations && k != IC_DEFAULT
    requires Removable(found, ic.labels, e.labels) && Removable(found, ic.annotations - {IC_DEFAULT}, e.annotations)
    ensures Field(Annotated(Apply(target, BuildIc(found, ic, e))), k) ==
      Field(e.annotations.GetOr(ic.annotations), k)
  {
    AnnotationRead(found, target, ic, e, k);
    OtherAnnotation(ic, e, k);
  }

  predicate Marked(annotations: Fields) { Field(annotations, IC_DEFAULT) == Some(Str("true")) }

  /** As asked: what the annotations say, if they list the mark; else what the switch says; else what was. */
  predicate MarkAsked(ic: Ic, e: IcEdit) {
    if e.annotations.Some? && IC_DEFAULT in e.annotations.value then e.annotations.value[IC_DEFAULT] == Str("true")
    else match e.isDefault
      case Unasked => Marked(ic.annotations)
      case Clear => false
      case Ask(value) => value
  }

  lemma MarkAfter(ic: Ic, e: IcEdit)
    ensures IcAnnotationAfter(ic, e, IC_DEFAULT) == Some(Str("true")) <==> MarkAsked(ic, e)
  {
  }

  /** Its default mark ends as asked. */
  lemma DefaultMarkAsAsked(found: string -> bool, target: Fields, ic: Ic, e: IcEdit)
    requires Labeled(target) == ic.labels && Annotated(target) == ic.annotations
    requires Removable(found, ic.labels, e.labels) && Removable(found, ic.annotations - {IC_DEFAULT}, e.annotations)
    ensures Marked(Annotated(Apply(target, BuildIc(found, ic, e)))) <==> MarkAsked(ic, e)
  {
    AnnotationRead(found, target, ic, e, IC_DEFAULT);
    MarkAfter(ic, e);
  }

  const SC_DEFAULT := "storageclass.kubernetes.io/is-default-class"
  const SC_BETA_DEFAULT := "storageclass.beta.kubernetes.io/is-default-class"

  /** A storage class as the mapper reads it: the default if either key says so. */
  predicate ReadsDefault(annotations: Fields) {
    Field(annotations, SC_DEFAULT) == Some(Str("true")) || Field(annotations, SC_BETA_DEFAULT) == Some(Str("true"))
  }

  /**
   A storage class: labels and other annotations become what is asked for. A default key that is listed is
   written as listed; a beta key that is not stays as it was; the first key, when it is not listed, is
   written as the switch asks if the class does not read so already, and stays as it was if it does.
   */
  lemma StorageClassAsAsked(found: string -> bool, target: Fields, sc: Sc, e: ScEdit, k: string)
    requires Labeled(target) == sc.labels && Annotated(target) == sc.annotations
    requires Removable(found, sc.labels, e.labels)
    requires Removable(found, sc.annotations - {SC_DEFAULT, SC_BETA_DEFAULT}, e.annotations)
    ensures
      var after := Apply(target, BuildSc(found, sc, e));
      && Labeled(after) == (if e.labels.Some? then e.labels.value else sc.labels)
      && Field(Annotated(after), k) ==
         if e.annotations.Some? && k in e.annotations.value then Some(e.annotations.value[k])
         else if k == SC_DEFAULT && e.isDefault.Some? && e.isDefault.value != ReadsDefault(sc.annotations)
           then Some(Str(if e.isDefault.value then "true" else "false"))
         else if k == SC_DEFAULT || k == SC_BETA_DEFAULT || e.annotations.None? then Field(sc.annotations, k)
         else None
  {
    ScPatchApplies(found, target, sc, e);
    assert SC_DEFAULT == SC_KEY && SC_BETA_DEFAULT == SC_BETA_KEY;
    var after := Apply(target, BuildSc(found, sc, e));
    assert Field(Annotated(after), k) == ScAnnotationAfter(sc, e, k);
  }
}
