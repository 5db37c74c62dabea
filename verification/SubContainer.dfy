/** Rebuilding a container from the form over what it was: resources and volume mounts (src/logic/subContainer.js). */
module SubContainer {
  import opened Wrappers
  import opened Seqs
  import opened JsText
  import opened Json

  function Within(m: Fields, keys: set<string>): Fields { m - (m.Keys - keys) }

  // ------------------------------------------------------------ resources

  /** The four resource fields of the form. */
  datatype Form = Form(cpuRequest: string, memoryRequest: string, cpuLimit: string, memoryLimit: string)

  const COMPUTE := {"cpu", "memory"}

  /** A section, or no entries where there is none. */
  function Entries(r: Fields, section: string): Fields {
    if section in r && r[section].Obj? then r[section].fields else map[]
  }

  function Given(key: string, text: string): Fields { if text != "" then map[key := Str(Trim(text))] else map[] }

  /** A section with the form's cpu and memory in place of its own. */
  function Filled(was: Fields, cpu: string, memory: string): Fields {
    Without(was, COMPUTE) + Given("cpu", cpu) + Given("memory", memory)
  }

  /** A section that was there and is now empty is set to null, so that a merge patch deletes it. */
  function PutSection(r: Fields, section: string, filled: Fields): Fields {
    if filled != map[] then r[section := Obj(filled)] else if section in r then r[section := Null] else r
  }

  function MergeResources(base: Option<Fields>, form: Form): Option<Fields> {
    var r := base.GetOr(map[]);
    var r1 := PutSection(r, "requests", Filled(Entries(r, "requests"), form.cpuRequest, form.memoryRequest));
    var r2 := PutSection(r1, "limits", Filled(Entries(r, "limits"), form.cpuLimit, form.memoryLimit));
    if r2 == map[] then None else Some(r2)
  }

  /** String(v || '') */
  function TextOf(v: Option<Json>): string { if Truthy(v) then S(v) else "" }

  function FormOf(r: Fields): Form {
    var requests, limits := Entries(r, "requests"), Entries(r, "limits");
    Form(TextOf(Field(requests, "cpu")), TextOf(Field(requests, "memory")), TextOf(Field(limits, "cpu")),
      TextOf(Field(limits, "memory")))
  }

  /** A section without its cpu and memory, or left out if nothing else is in it. */
  function PickSection(r: Fields, section: string): Fields {
    var rest := Without(Entries(r, section), COMPUTE);
    if rest != map[] then map[section := Obj(rest)] else map[]
  }

  function PickExtra(r: Fields): Option<Fields> {
    var extra := Without(r, {"requests", "limits"}) + PickSection(r, "requests") + PickSection(r, "limits");
    if extra == map[] then None else Some(extra)
  }

  lemma PutSectionSpec(r: Fields, section: string, filled: Fields, k: string)
    ensures k != section ==> Field(PutSection(r, section, filled), k) == Field(r, k)
    ensures Entries(PutSection(r, section, filled), section) == filled
  {
  }

  lemma FilledKeeps(was: Fields, cpu: string, memory: string, k: string)
    requires k !in COMPUTE
    ensures Field(Filled(was, cpu, memory), k) == Field(was, k)
  {
  }

  /** Whatever the form says, the other keys of a section and the other keys of the resources are kept. */
  lemma ThirdKeysKept(base: Fields, form: Form, k: string)
    requires MergeResources(Some(base), form).Some?
    ensures var r := MergeResources(Some(base), form).value;
      && (k != "requests" && k != "limits" ==> Field(r, k) == Field(base, k))
      && (k !in COMPUTE ==> Field(Entries(r, "requests"), k) == Field(Entries(base, "requests"), k))
      && (k !in COMPUTE ==> Field(Entries(r, "limits"), k) == Field(Entries(base, "limits"), k))
  {
    var req := Filled(Entries(base, "requests"), form.cpuRequest, form.memoryRequest);
    var lim := Filled(Entries(base, "limits"), form.cpuLimit, form.memoryLimit);
    var r1 := PutSection(base, "requests", req);
    PutSectionSpec(base, "requests", req, k);
    PutSectionSpec(r1, "limits", lim, k);
    PutSectionSpec(r1, "limits", lim, "requests");
    if k !in COMPUTE {
      FilledKeeps(Entries(base, "requests"), form.cpuRequest, form.memoryRequest, k);
      FilledKeeps(Entries(base, "limits"), form.cpuLimit, form.memoryLimit, k);
    }
  }

  /** What a text of the form stands for: nothing, or the text without the white space at its ends. */
  function Typed(text: string): Option<Json> { if text == "" then None else Some(Str(Trim(text))) }

  lemma FilledHas(was: Fields, cpu: string, memory: string)
    ensures Field(Filled(was, cpu, memory), "cpu") == Typed(cpu)
    ensures Field(Filled(was, cpu, memory), "memory") == Typed(memory)
    ensures Filled(was, cpu, memory) == map[] <==> cpu == memory == "" && was.Keys <= COMPUTE
  {
    var filled := Filled(was, cpu, memory);
    if !(was.Keys <= COMPUTE) {
      var k :| k in was && k !in COMPUTE;
      assert k in filled;
    }
    assert cpu != "" ==> "cpu" in filled;
    assert memory != "" ==> "memory" in filled;
  }

  /** The form decides the four quantities, whatever was there before: each is what was typed, or gone. */
  lemma EditedQuantities(base: Option<Fields>, form: Form)
    ensures
      var r := MergeResources(base, form).GetOr(map[]);
      && Field(Entries(r, "requests"), "cpu") == Typed(form.cpuRequest)
      && Field(Entries(r, "requests"), "memory") == Typed(form.memoryRequest)
      && Field(Entries(r, "limits"), "cpu") == Typed(form.cpuLimit)
      && Field(Entries(r, "limits"), "memory") == Typed(form.memoryLimit)
  {
    var was := base.GetOr(map[]);
    var req := Filled(Entries(was, "requests"), form.cpuRequest, form.memoryRequest);
    var lim := Filled(Entries(was, "limits"), form.cpuLimit, form.memoryLimit);
    var r1 := PutSection(was, "requests", req);
    PutSectionSpec(was, "requests", req, "requests");
    PutSectionSpec(r1, "limits", lim, "requests");
    FilledHas(Entries(was, "requests"), form.cpuRequest, form.memoryRequest);
    FilledHas(Entries(was, "limits"), form.cpuLimit, form.memoryLimit);
    assert MergeResources(base, form).GetOr(map[]) == PutSection(r1, "limits", lim);
    assert Entries(PutSection(r1, "limits", lim), "requests") == req;
  }

  /** A section holds nothing but quantities. */
  predicate OnlyQuantities(was: Fields, section: string) {
    forall k :: k in Entries(was, section) ==> k == "cpu" || k == "memory"
  }

  /**
   A section left with nothing in it is set to null if it was there, so that a merge patch deletes it, and
   left out if not; there are no resources at all exactly when none were there and nothing is typed.
   */
  lemma ClearedSections(base: Option<Fields>, form: Form)
    ensures
      var was, r := base.GetOr(map[]), MergeResources(base, form).GetOr(map[]);
      && (form.cpuRequest == form.memoryRequest == "" && OnlyQuantities(was, "requests") ==>
            Field(r, "requests") == if "requests" in was then Some(Null) else None)
      && (form.cpuLimit == form.memoryLimit == "" && OnlyQuantities(was, "limits") ==>
            Field(r, "limits") == if "limits" in was then Some(Null) else None)
      && (MergeResources(base, form).None? <==> was == map[] && form == Form("", "", "", ""))
  {
    var was := base.GetOr(map[]);
    var req := Filled(Entries(was, "requests"), form.cpuRequest, form.memoryRequest);
    var lim := Filled(Entries(was, "limits"), form.cpuLimit, form.memoryLimit);
    var r1 := PutSection(was, "requests", req);
    FilledHas(Entries(was, "requests"), form.cpuRequest, form.memoryRequest);
    FilledHas(Entries(was, "limits"), form.cpuLimit, form.memoryLimit);
    PutSectionSpec(was, "requests", req, "limits");
    PutSectionSpec(r1, "limits", lim, "requests");
    PutEmptyIff(was, "requests", req);
    PutEmptyIff(r1, "limits", lim);
  }

  lemma PutEmptyIff(r: Fields, section: string, filled: Fields)
    ensures PutSection(r, section, filled) == map[] <==> r == map[] && filled == map[]
  {
    if filled != map[] || section in r { assert section in PutSection(r, section, filled); }
  }

  /** The cpu or memory of a section: absent, or a text with no white space at its ends. */
  predicate CleanQuantity(v: Option<Json>) { v.None? || (v.value.Str? && v.value.s != "" && Trimmed(v.value.s)) }

  /** A section that survives: absent, or an object with something in it and clean quantities. */
  predicate CleanSection(r: Fields, section: string) {
    section in r ==>
      && r[section].Obj? && r[section].fields != map[]
      && CleanQuantity(Field(r[section].fields, "cpu")) && CleanQuantity(Field(r[section].fields, "memory"))
  }

  lemma GivenIff(m: Fields, key: string)
    ensures Field(Given(key, TextOf(Field(m, key))), key) == Field(m, key) <==> CleanQuantity(Field(m, key))
    ensures forall k :: k in Given(key, TextOf(Field(m, key))) ==> k == key
  {
    var v := Field(m, key);
    if v.Some? && v.value.Str? { TrimIsTrimmed(v.value.s); }
  }

  /** Filling a section with its own quantities gives it back when they are clean. */
  lemma FilledIff(m: Fields, rest: Fields)
    requires Without(rest, COMPUTE) == Without(m, COMPUTE)
    ensures Filled(rest, TextOf(Field(m, "cpu")), TextOf(Field(m, "memory"))) == m <==>
      CleanQuantity(Field(m, "cpu")) && CleanQuantity(Field(m, "memory"))
  {
    var cpu, memory := TextOf(Field(m, "cpu")), TextOf(Field(m, "memory"));
    var filled := Filled(rest, cpu, memory);
    GivenIff(m, "cpu");
    GivenIff(m, "memory");
    assert Field(filled, "cpu") == Field(Given("cpu", cpu), "cpu");
    assert Field(filled, "memory") == Field(Given("memory", memory), "memory");
    if CleanQuantity(Field(m, "cpu")) && CleanQuantity(Field(m, "memory")) {
      forall k ensures Field(filled, k) == Field(m, k) {
        assert k !in COMPUTE ==> Field(Without(rest, COMPUTE), k) == Field(Without(m, COMPUTE), k);
      }
      SameFields(filled, m);
    }
  }

  /**
   What becomes of one section when it is filled with its own quantities, over itself or over what was
   picked of it.
   */
  lemma SectionIff(r: Fields, base: Fields, section: string)
    requires Without(Entries(base, section), COMPUTE) == Without(Entries(r, section), COMPUTE)
    requires section in base ==> section in r
    ensures
      var filled := Filled(Entries(base, section), TextOf(Field(Entries(r, section), "cpu")),
        TextOf(Field(Entries(r, section), "memory")));
      Field(PutSection(base, section, filled), section) == Field(r, section) <==>
        CleanSection(r, section) || (section in r && section in base && r[section].Null?)
  {
    var m := Entries(r, section);
    FilledIff(m, Entries(base, section));
    if section in r && !(r[section].Obj? && r[section].fields != map[]) {
      assert m == map[];
      assert Field(m, "cpu").None? && Field(m, "memory").None?;
    }
  }

  /** A section comes back: it is clean, or was null and is merged over itself. */
  predicate SectionReturns(r: Fields, base: Fields, section: string) {
    CleanSection(r, section) || (section in r && section in base && r[section].Null?)
  }

  lemma MergeIff(r: Fields, base: Fields)
    requires forall k :: k != "requests" && k != "limits" ==> Field(base, k) == Field(r, k)
    requires Without(Entries(base, "requests"), COMPUTE) == Without(Entries(r, "requests"), COMPUTE) &&
      ("requests" in base ==> "requests" in r)
    requires Without(Entries(base, "limits"), COMPUTE) == Without(Entries(r, "limits"), COMPUTE) &&
      ("limits" in base ==> "limits" in r)
    ensures MergeResources(Some(base), FormOf(r)) == Some(r) <==>
      r != map[] && SectionReturns(r, base, "requests") && SectionReturns(r, base, "limits")
  {
    var f := FormOf(r);
    var req := Filled(Entries(base, "requests"), f.cpuRequest, f.memoryRequest);
    var lim := Filled(Entries(base, "limits"), f.cpuLimit, f.memoryLimit);
    var r1 := PutSection(base, "requests", req);
    var r2 := PutSection(r1, "limits", lim);
    SectionIff(r, base, "requests");
    SectionIff(r, base, "limits");
    forall k ensures Field(r2, k) == if k == "requests" then Field(r1, k)
      else if k == "limits" then Field(PutSection(base, "limits", lim), k) else Field(r, k)
    {
      PutSectionSpec(base, "requests", req, k);
      PutSectionSpec(r1, "limits", lim, k);
    }
    if Field(r2, "requests") == Field(r, "requests") && Field(r2, "limits") == Field(r, "limits") { SameFields(r2, r); }
  }

  /** Saving a container unedited leaves its resources exactly when both sections come back. */
  lemma UneditedResourcesIff(r: Fields)
    ensures MergeResources(Some(r), FormOf(r)) == Some(r) <==>
      r != map[] && SectionReturns(r, r, "requests") && SectionReturns(r, r, "limits")
  {
    MergeIff(r, r);
  }

  lemma PickedSection(r: Fields, section: string, other: string)
    requires section != other
    ensures var extra := Without(r, {section, other}) + PickSection(r, section) + PickSection(r, other);
      && Without(Entries(extra, section), COMPUTE) == Without(Entries(r, section), COMPUTE)
      && Without(Entries(extra, other), COMPUTE) == Without(Entries(r, other), COMPUTE)
      && (section in extra ==> section in r) && (other in extra ==> other in r)
      && forall k :: k != section && k != other ==> Field(extra, k) == Field(r, k)
  {
    assert Without(Without(Entries(r, section), COMPUTE), COMPUTE) == Without(Entries(r, section), COMPUTE);
    assert Without(Without(Entries(r, other), COMPUTE), COMPUTE) == Without(Entries(r, other), COMPUTE);
  }

  /** What is carried beside the form: nothing exactly when there are only cpu and memory of the two sections. */
  lemma CarriedNoneIff(r: Fields)
    ensures PickExtra(r).None? <==>
      && (forall k :: k in r ==> k == "requests" || k == "limits")
      && OnlyQuantities(r, "requests") && OnlyQuantities(r, "limits")
    ensures PickExtra(r).Some? ==> PickExtra(r).value != map[]
  {
    var others := Without(r, {"requests", "limits"});
    var extra := others + PickSection(r, "requests") + PickSection(r, "limits");
    PickedNoneIff(r, "requests");
    PickedNoneIff(r, "limits");
    assert extra == map[] <==>
      others == map[] && PickSection(r, "requests") == map[] && PickSection(r, "limits") == map[] by {
      assert forall k :: k in extra <==>
        k in others || k in PickSection(r, "requests") || k in PickSection(r, "limits");
    }
    assert others == map[] <==> forall k :: k in r ==> k == "requests" || k == "limits" by {
      assert forall k :: k in others <==> k in r && k != "requests" && k != "limits";
    }
  }

  lemma PickedNoneIff(r: Fields, section: string)
    ensures PickSection(r, section) == map[] <==> OnlyQuantities(r, section)
  {
    var rest := Without(Entries(r, section), COMPUTE);
    assert forall k :: k in rest <==> k in Entries(r, section) && k != "cpu" && k != "memory";
    assert rest != map[] ==> section in PickSection(r, section);
    assert rest != map[] ==> exists k :: k in rest;
  }

  /**
   Copying a container, with its other resource keys carried beside the form, gives its resources exactly
   when both sections are clean.
   */
  lemma CopiedResourcesIff(r: Fields)
    ensures MergeResources(PickExtra(r), FormOf(r)) == Some(r) <==>
      r != map[] && CleanSection(r, "requests") && CleanSection(r, "limits")
  {
    var extra := Without(r, {"requests", "limits"}) + PickSection(r, "requests") + PickSection(r, "limits");
    PickedSection(r, "requests", "limits");
    assert PickExtra(r).GetOr(map[]) == extra;
    assert MergeResources(PickExtra(r), FormOf(r)) == MergeResources(Some(extra), FormOf(r));
    MergeIff(r, extra);
  }

  // ------------------------------------------------------------ volume mounts

  const MODELED := {"name", "mountPath", "subPath", "readOnly"}

  function NameOf(m: Fields): string { TextOf(Field(m, "name")) }

  /** The first mount of each name. */
  function FirstNamed(ms: seq<Fields>, name: string): Option<Fields> {
    if ms == [] || name == "" then None else if NameOf(ms[0]) == name then Some(ms[0]) else FirstNamed(ms[1..], name)
  }

  function Overlay(base: seq<Fields>): Fields -> Fields {
    m => var b := FirstNamed(base, NameOf(m)); if b.Some? then Without(b.value, MODELED) + m else m
  }

  function MergeMounts(base: seq<Fields>, mounts: seq<Fields>): seq<Fields> { Map(Overlay(base), mounts) }

  /** The keys outside the form that a mount of this name is given. */
  function Borrowed(base: seq<Fields>, m: Fields): Fields {
    var b := FirstNamed(base, NameOf(m));
    if b.Some? then Without(b.value, MODELED) else map[]
  }

  function Modeled(m: Fields): Fields { Within(m, MODELED) }

  lemma OverlayIff(base: seq<Fields>, m: Fields)
    ensures Overlay(base)(Modeled(m)) == m <==> Without(m, MODELED) == Borrowed(base, m)
  {
    assert Field(Modeled(m), "name") == Field(m, "name");
    var rest := Borrowed(base, m);
    assert Overlay(base)(Modeled(m)) == rest + Modeled(m);
    assert Without(rest + Modeled(m), MODELED) == rest;
    if Without(m, MODELED) == rest { assert rest + Modeled(m) == m; }
  }

  /**
   Saving a container's mounts unedited leaves them as they were exactly when all mounts of one name
   have the same keys outside the form: those of the first are given to every mount of that name.
   */
  lemma UneditedMountsIff(base: seq<Fields>)
    ensures MergeMounts(base, Map(Modeled, base)) == base <==>
      forall i :: 0 <= i < |base| ==> Without(base[i], MODELED) == Borrowed(base, base[i])
  {
    var out := MergeMounts(base, Map(Modeled, base));
    forall i | 0 <= i < |base| ensures out[i] == base[i] <==> Without(base[i], MODELED) == Borrowed(base, base[i]) {
      assert out[i] == Overlay(base)(Modeled(base[i]));
      OverlayIff(base, base[i]);
    }
  }

  /** What a mount saved unedited becomes: its own modelled keys over the other keys of the first mount of its name. */
  lemma MountTakesFrom(first: Fields, base: seq<Fields>, m: Fields)
    requires base != [] && base[0] == first && NameOf(first) == NameOf(m) != ""
    ensures Overlay(base)(Modeled(m)) == Without(first, MODELED) + Modeled(m)
  {
    assert Field(Modeled(m), "name") == Field(m, "name");
  }

  lemma {:induction false} FirstNamedAt(base: seq<Fields>, name: string, j: nat)
    requires name != "" && (j < |base| ==> NameOf(base[j]) == name)
    requires forall i :: 0 <= i < j && i < |base| ==> NameOf(base[i]) != name
    ensures FirstNamed(base, name) == if j < |base| then Some(base[j]) else None
  {
    if base != [] && j > 0 { FirstNamedAt(base[1..], name, j - 1); }
  }

  /**
   A mount of the form, edited or new: the keys it has are its own; of the keys outside the form it takes
   those of the first mount of its name that the container had.
   */
  lemma EditedMount(base: seq<Fields>, mounts: seq<Fields>, i: nat, j: nat, k: string)
    requires i < |mounts| && NameOf(mounts[i]) != "" && (j < |base| ==> NameOf(base[j]) == NameOf(mounts[i]))
    requires forall n :: 0 <= n < j && n < |base| ==> NameOf(base[n]) != NameOf(mounts[i])
    ensures |MergeMounts(base, mounts)| == |mounts|
    ensures Field(MergeMounts(base, mounts)[i], k) ==
      if k in mounts[i] then Some(mounts[i][k])
      else if j < |base| && k !in {"name", "mountPath", "subPath", "readOnly"} then Field(base[j], k)
      else None
  {
    FirstNamedAt(base, NameOf(mounts[i]), j);
    assert MergeMounts(base, mounts)[i] == Overlay(base)(mounts[i]);
  }

  /** A mount without a name takes nothing. */
  lemma NamelessMount(base: seq<Fields>, mounts: seq<Fields>, i: nat)
    requires i < |mounts| && NameOf(mounts[i]) == ""
    ensures |MergeMounts(base, mounts)| == |mounts| && MergeMounts(base, mounts)[i] == mounts[i]
  {
    assert MergeMounts(base, mounts)[i] == Overlay(base)(mounts[i]);
  }

  const PLAIN := map["name" := Str("data"), "mountPath" := Str("/a")]

  const PROPAGATED := map["name" := Str("data"), "mountPath" := Str("/b"), "mountPropagation" := Str("Bidirectional")]

  lemma KeysOfTheTwo()
    ensures Without(PLAIN, MODELED) == map[] && Modeled(PLAIN) == PLAIN
    ensures Without(PROPAGATED, MODELED) == map["mountPropagation" := Str("Bidirectional")]
    ensures Modeled(PROPAGATED) == PROPAGATED - {"mountPropagation"}
  {
    var k := "mountPropagation";
    assert |k| == 16 && k !in MODELED;
    forall x ensures Field(Modeled(PROPAGATED), x) == Field(PROPAGATED - {k}, x) {}
    SameFields(Modeled(PROPAGATED), PROPAGATED - {k});
  }

  /** Two mounts of one volume, of which only the second has a propagation mode: saved unedited, it is lost. */
  lemma SecondMountLosesItsPropagation()
    ensures MergeMounts([PLAIN, PROPAGATED], Map(Modeled, [PLAIN, PROPAGATED])) ==
      [PLAIN, PROPAGATED - {"mountPropagation"}]
  {
    var base := [PLAIN, PROPAGATED];
    KeysOfTheTwo();
    MountTakesFrom(PLAIN, base, PLAIN);
    MountTakesFrom(PLAIN, base, PROPAGATED);
    assert Overlay(base)(Modeled(base[0])) == PLAIN &&
      Overlay(base)(Modeled(base[1])) == PROPAGATED - {"mountPropagation"};
  }

  /** And with the two the other way round, the second is given a mode it never had. */
  lemma SecondMountGainsPropagation()
    ensures MergeMounts([PROPAGATED, PLAIN], Map(Modeled, [PROPAGATED, PLAIN])) ==
      [PROPAGATED, PLAIN["mountPropagation" := Str("Bidirectional")]]
  {
    var base := [PROPAGATED, PLAIN];
    KeysOfTheTwo();
    MountTakesFrom(PROPAGATED, base, PROPAGATED);
    MountTakesFrom(PROPAGATED, base, PLAIN);
    assert Overlay(base)(Modeled(base[0])) == PROPAGATED;
    assert Overlay(base)(Modeled(base[1])) == PLAIN["mountPropagation" := Str("Bidirectional")];
  }
}
