/**
 What the rows of the env form (src/logic/envRefs.js) are in a container's env and envFrom lists, key by key,
 and what the gate reports of a row.
 */
module EnvShapes {
  import opened Wrappers
  import opened Seqs
  import opened JsText
  import opened Json
  import opened EnvRefs

  predicate Filled(text: string) { Trim(text) != "" }

  /** A text under a key, without the white space at its ends; nothing for a blank text. */
  function Put(key: string, text: string): Fields {
    if Filled(text) then map[key := Str(Trim(text))] else map[]
  }

  function Named(name: string, source: string, ref: Fields): Fields {
    map["name" := Str(Trim(name)), "valueFrom" := Obj(map[source := Obj(ref)])]
  }

  // ------------------------------------------------------------ writing

  /** A variable given directly: an empty value is written out. */
  lemma PlainRowWritten(r: Row)
    requires r.kind.None? && r.passthrough.None?
    ensures ToEntry(r) ==
      if Filled(r.name) then Some(map["name" := Str(Trim(r.name)), "value" := Str(r.value)]) else None
  {
  }

  /** A variable taken from elsewhere, in the shape of each kind; a row that lacks a required field is skipped. */
  lemma SourceRowWritten(r: Row)
    requires r.kind.Some? && r.passthrough.None?
    ensures ToEntry(r) ==
      match r.kind.value
      case ConfigMapKey =>
        if Filled(r.name) && Filled(r.cmName) && Filled(r.key)
        then Some(Named(r.name, "configMapKeyRef", Put("name", r.cmName) + Put("key", r.key))) else None
      case SecretKey =>
        if Filled(r.name) && Filled(r.secretName) && Filled(r.key)
        then Some(Named(r.name, "secretKeyRef", Put("name", r.secretName) + Put("key", r.key))) else None
      case FieldPath =>
        if Filled(r.name) && Filled(r.fieldPath)
        then Some(Named(r.name, "fieldRef", Put("fieldPath", r.fieldPath))) else None
      case ResourceField =>
        if Filled(r.name) && Filled(r.resource)
        then Some(Named(r.name, "resourceFieldRef",
          Put("resource", r.resource) + Put("containerName", r.containerName) + Put("divisor", r.divisor)))
        else None
  {
  }

  /** The key of a valueFrom that the rows of a kind read and write. */
  function SourceKey(s: Source): string {
    match s
    case ConfigMapKey => "configMapKeyRef"
    case SecretKey => "secretKeyRef"
    case FieldPath => "fieldRef"
    case ResourceField => "resourceFieldRef"
  }

  lemma SourceKeyIs(s: Source)
    ensures KeyOf(s) == SourceKey(s)
  {
  }

  // ------------------------------------------------------------ reading

  /** Which kind a valueFrom is read as: of the four, the first it holds an object under. */
  lemma KindRead(e: Fields, vf: Fields)
    requires Field(e, "valueFrom") == Some(Obj(vf))
    ensures FromEntry(e).name == S(Field(e, "name"))
    ensures FromEntry(e).kind ==
      if Holds(vf, "configMapKeyRef") then Some(ConfigMapKey)
      else if Holds(vf, "secretKeyRef") then Some(SecretKey)
      else if Holds(vf, "fieldRef") then Some(FieldPath)
      else if Holds(vf, "resourceFieldRef") then Some(ResourceField)
      else None
  {
  }

  predicate Holds(vf: Fields, key: string) { key in vf && (vf[key].Obj? || vf[key].Arr?) }

  /** The fields a source is read into. */
  lemma FieldsRead(e: Fields, vf: Fields, s: Source, src: Fields)
    requires Field(e, "valueFrom") == Some(Obj(vf)) && FromEntry(e).kind == Some(s)
    requires Field(vf, SourceKey(s)) == Some(Obj(src))
    ensures
      var r := FromEntry(e);
      match s
      case ConfigMapKey => r.cmName == S(Field(src, "name")) && r.key == S(Field(src, "key"))
      case SecretKey => r.secretName == S(Field(src, "name")) && r.key == S(Field(src, "key"))
      case FieldPath => r.fieldPath == S(Field(src, "fieldPath"))
      case ResourceField =>
        && r.resource == S(Field(src, "resource")) && r.containerName == S(Field(src, "containerName"))
        && r.divisor == S(Field(src, "divisor"))
  {
  }

  /** The keys of a source that a row of this kind has fields for. */
  function FormKeys(s: Source): set<string> {
    match s
    case ConfigMapKey => {"name", "key"}
    case SecretKey => {"name", "key"}
    case FieldPath => {"fieldPath"}
    case ResourceField => {"resource", "containerName", "divisor"}
  }

  /** What the row wrote aside is laid over the fields it writes. */
  lemma AsideIsWritten(r: Row, s: Source, src: Fields, k: string)
    requires k !in FormKeys(s) && !Truthy(Field(src, "valueFrom"))
    requires r.passthrough == AsideOf(Without(src, FormKeys(s)))
    ensures Field(FullSource(r, s), k) == Field(src, k)
  {
    var rest := Without(src, FormKeys(s));
    assert Field(rest, k) == Field(src, k);
    assert Field(rest, "valueFrom") == Field(src, "valueFrom") || Field(rest, "valueFrom").None?;
    FormWritesFormKeys(r, s);
    assert FullSource(r, s) == SourceOf(r, s) + rest;
  }

  lemma FormWritesFormKeys(r: Row, s: Source)
    ensures SourceOf(r, s).Keys <= FormKeys(s)
  {
  }

  function AsideOf(rest: Fields): Option<Fields> { if rest == map[] then None else Some(rest) }

  /**
   Editing the fields of a row does not touch what the form has no field for: a key of the source such as
   optional is in the source that is written.
   */
  lemma EditKeepsOtherKeys(e: Fields, s: Source, src: Fields, r: Row, k: string)
    requires Field(e, "valueFrom") == Some(Obj(map[SourceKey(s) := Obj(src)])) && !Truthy(Field(src, "valueFrom"))
    requires r.kind == Some(s) && r.passthrough == FromEntry(e).passthrough && ToEntry(r).Some?
    requires k !in FormKeys(s)
    ensures
      var vf := Field(ToEntry(r).value, "valueFrom");
      && vf.Some? && vf.value.Obj? && vf.value.fields.Keys == {SourceKey(s)} && vf.value.fields[SourceKey(s)].Obj?
      && Field(vf.value.fields[SourceKey(s)].fields, k) == Field(src, k)
  {
    assert r.passthrough == AsideOf(Without(src, FormKeys(s))) by {
      OnlyThatKey(map[SourceKey(s) := Obj(src)], s);
      PassedOn(e, s, src);
    }
    AsideIsWritten(r, s, src, k);
    SourceKeyIs(s);
    var full := FullSource(r, s);
    assert ToEntry(r) == Some(SourceEntry(Trim(r.name), s, full));
  }

  lemma OnlyThatKey(vf: Fields, s: Source)
    requires vf.Keys == {SourceKey(s)} && vf[SourceKey(s)].Obj?
    ensures FindSource(vf) == Some(s)
  {
    assert forall t: Source :: SourceKey(t) in vf ==> SourceKey(t) == SourceKey(s);
    assert |"configMapKeyRef"| == 15 && |"secretKeyRef"| == 12 && |"fieldRef"| == 8 && |"resourceFieldRef"| == 16;
  }

  /** The row remembers the keys of its source that it has no fields for. */
  lemma PassedOn(e: Fields, s: Source, src: Fields)
    requires Field(e, "valueFrom") == Some(Obj(map[SourceKey(s) := Obj(src)]))
    requires FindSource(map[SourceKey(s) := Obj(src)]) == Some(s)
    ensures
      FromEntry(e).passthrough == AsideOf(Without(src, FormKeys(s)))
  {
    var vf := map[SourceKey(s) := Obj(src)];
    assert Without(vf, {SourceKey(s)}) == map[];
  }

  /**
   The row remembers the keys of its source and the other keys of the valueFrom in one object; of a key in
   both the latter.
   */
  lemma OtherKeysRemembered(e: Fields, vf: Fields, s: Source, src: Fields, k: string)
    requires Field(e, "valueFrom") == Some(Obj(vf)) && FromEntry(e).kind == Some(s)
    requires Field(vf, SourceKey(s)) == Some(Obj(src))
    ensures
      var aside := FromEntry(e).passthrough.GetOr(map[]);
      Field(aside, k) ==
      if k in vf && k != SourceKey(s) then Some(vf[k])
      else if k in src && k !in FormKeys(s) then Some(src[k])
      else None
  {
    PassedMerges(src, FormKeys(s), vf, {SourceKey(s)});
    RowRead(e, vf, s, src);
  }

  lemma RowRead(e: Fields, vf: Fields, s: Source, src: Fields)
    requires Field(e, "valueFrom") == Some(Obj(vf)) && FromEntry(e).kind == Some(s)
    requires Field(vf, SourceKey(s)) == Some(Obj(src))
    ensures FromEntry(e).passthrough == Passed(Rest(src, FormKeys(s)), Rest(vf, {SourceKey(s)}))
  {
    assert FindSource(vf) == Some(s);
  }

  lemma PassedMerges(a: Fields, dropA: set<string>, b: Fields, dropB: set<string>)
    ensures Passed(Rest(a, dropA), Rest(b, dropB)).GetOr(map[]) == Without(a, dropA) + Without(b, dropB)
  {
  }

  /** A list is read as its items under their indices, */
  lemma {:induction false} ListEntry(items: seq<Json>, text: string, i: nat)
    requires i < |items|
    ensures Field(EntriesOf(Arr(items, text)), Decimal(i)) == Some(items[i])
  {
    var n := |items| - 1;
    if i < n {
      ListEntry(items[..n], text, i);
      if Decimal(i) == Decimal(n) { DecimalInjective(i, n); }
    }
  }

  /** and as nothing else. */
  lemma {:induction false} NoOtherEntry(items: seq<Json>, text: string, k: string) returns (i: nat)
    requires k in EntriesOf(Arr(items, text))
    ensures i < |items| && k == Decimal(i)
  {
    var n := |items| - 1;
    if k == Decimal(n) { i := n; } else { i := NoOtherEntry(items[..n], text, k); }
  }

  // ------------------------------------------------------------ the gate

  /** A field of a row: its name, what is typed in it, and whether it must be filled. */
  datatype FormField = FormField(name: string, text: string, required: bool)

  /** The fields of a row, by kind. A value may be left empty. */
  function FieldsOf(r: Row): seq<FormField> {
    var name := FormField("name", r.name, true);
    match r.kind
    case None => [name, FormField("value", r.value, false)]
    case Some(ConfigMapKey) => [name, FormField("cmName", r.cmName, true), FormField("key", r.key, true)]
    case Some(SecretKey) => [name, FormField("secretName", r.secretName, true), FormField("key", r.key, true)]
    case Some(FieldPath) => [name, FormField("fieldPath", r.fieldPath, true)]
    case Some(ResourceField) =>
      [name, FormField("resource", r.resource, true), FormField("containerName", r.containerName, false),
       FormField("divisor", r.divisor, false)]
  }

  function Lacking(fields: seq<FormField>): seq<string> {
    if fields == [] then []
    else (if fields[0].required && !Filled(fields[0].text) then [fields[0].name] else []) + Lacking(fields[1..])
  }

  predicate AnyFilled(fields: seq<FormField>) {
    fields != [] && (Filled(fields[0].text) || AnyFilled(fields[1..]))
  }

  function LackOf(f: FormField): seq<string> { if f.required && !Filled(f.text) then [f.name] else [] }

  lemma OneField(a: FormField)
    ensures Lacking([a]) == LackOf(a) && (AnyFilled([a]) <==> Filled(a.text))
  {
    assert [a][1..] == [] && Lacking([]) == [];
  }

  lemma TwoFields(a: FormField, b: FormField)
    ensures Lacking([a, b]) == LackOf(a) + LackOf(b)
    ensures AnyFilled([a, b]) <==> Filled(a.text) || Filled(b.text)
  {
    assert [a, b][1..] == [b];
    OneField(b);
  }

  lemma ThreeFields(a: FormField, b: FormField, c: FormField)
    ensures Lacking([a, b, c]) == LackOf(a) + (LackOf(b) + LackOf(c))
    ensures AnyFilled([a, b, c]) <==> Filled(a.text) || Filled(b.text) || Filled(c.text)
  {
    assert [a, b, c][1..] == [b, c];
    TwoFields(b, c);
  }

  lemma FourFields(a: FormField, b: FormField, c: FormField, d: FormField)
    ensures Lacking([a, b, c, d]) == LackOf(a) + (LackOf(b) + (LackOf(c) + LackOf(d)))
    ensures AnyFilled([a, b, c, d]) <==> Filled(a.text) || Filled(b.text) || Filled(c.text) || Filled(d.text)
  {
    assert [a, b, c, d][1..] == [b, c, d];
    ThreeFields(b, c, d);
  }

  /** The row's own account of what it lacks, and of being blank, is that of its fields. */
  lemma FieldsSay(r: Row)
    ensures Missing(r) == Lacking(FieldsOf(r)) && (Blank(r) <==> !AnyFilled(FieldsOf(r)))
  {
    var name := FormField("name", r.name, true);
    match r.kind
    case None =>
      TwoFields(name, FormField("value", r.value, false));
    case Some(ConfigMapKey) =>
      ThreeFields(name, FormField("cmName", r.cmName, true), FormField("key", r.key, true));
    case Some(SecretKey) =>
      ThreeFields(name, FormField("secretName", r.secretName, true), FormField("key", r.key, true));
    case Some(FieldPath) =>
      TwoFields(name, FormField("fieldPath", r.fieldPath, true));
    case Some(ResourceField) =>
      FourFields(name, FormField("resource", r.resource, true),
        FormField("containerName", r.containerName, false), FormField("divisor", r.divisor, false));
  }

  lemma {:induction false} InReports(rows: seq<Row>, e: RowError)
    ensures e in Errors(rows) <==> e.index < |rows| && e in ReportOf(e.index, rows[e.index])
  {
    if rows != [] {
      InReports(rows[..|rows| - 1], e);
    }
  }

  /**
   The gate reports a row exactly when something is filled in and a required field is not; it names the
   row and its empty required fields in the order of the form, the name first.
   */
  lemma RowReported(rows: seq<Row>, e: RowError)
    ensures e in Errors(rows) <==>
      && e.index < |rows|
      && var r := rows[e.index];
         && AnyFilled(FieldsOf(r)) && Lacking(FieldsOf(r)) != []
         && e == RowError(e.index, r.name, Lacking(FieldsOf(r)))
  {
    InReports(rows, e);
    if e.index < |rows| {
      FieldsSay(rows[e.index]);
    }
  }

  // ------------------------------------------------------------ envFrom

  /** A whole object taken over: a named row writes one reference, of its own kind; a nameless one what it remembers. */
  lemma FromRowWritten(r: FromRow)
    requires r.passthrough.None? || !Filled(r.name)
    ensures
      var key := if r.secret then "secretRef" else "configMapRef";
      FromRowToEntry(r) ==
      if !Filled(r.name) then r.passthrough else Some(map[key := Obj(map["name" := Str(Trim(r.name))])])
  {
    if Filled(r.name) {
      var key, empty: Fields := RefKey(r.secret), map[];
      var ref := map["name" := Str(Trim(r.name))];
      assert ref + empty == ref && map[key := Obj(ref)] + Without(empty, {key}) == map[key := Obj(ref)];
      assert ObjectFields(Field(empty, key)).GetOr(map[]) == empty;
    }
  }

  /** A reference is read by its name; the config map counts when an entry has both. */
  lemma FromRowRead(e: Fields, name: string)
    ensures Field(e, "configMapRef") == Some(Obj(map["name" := Str(name)])) ==>
      !EntryToFromRow(e).secret && EntryToFromRow(e).name == name
    ensures Field(e, "secretRef") == Some(Obj(map["name" := Str(name)])) && "configMapRef" !in e ==>
      EntryToFromRow(e).secret && EntryToFromRow(e).name == name
  {
  }

  /** Renaming a reference keeps its other keys, and the other keys of the entry such as a prefix. */
  lemma RenameKeepsTheRest(e: Fields, ref: Fields, name: string, k: string)
    requires Filled(name) && !Truthy(Field(e, "configMapRef")) && Field(e, "secretRef") == Some(Obj(ref))
    ensures
      var w := FromRowToEntry(EntryToFromRow(e).(name := name));
      && w.Some?
      && (k != "secretRef" ==> Field(w.value, k) == Field(e, k))
      && Field(w.value, "secretRef") == Some(Obj(ref["name" := Str(Trim(name))]))
  {
    var key := "secretRef";
    var refRest := Without(ref, {"name"});
    var kept := KeptAside(e, key, refRest);
    KnownRow(e, true);
    KeptAsideRest(e, key, refRest);
    NoneOrEmpty(kept);
    var w := FromRowToEntry(EntryToFromRow(e).(name := name));
    assert map["name" := Str(Trim(name))] + refRest == ref["name" := Str(Trim(name))];
    assert k != key ==> Field(Without(kept, {key}), k) == Field(Without(e, {key}), k) == Field(e, k);
  }
}
