/** Environment variable rows against Kubernetes env and envFrom lists (src/logic/envRefs.js). */
module EnvRefs {
  import opened Wrappers
  import opened Seqs
  import opened JsText
  import opened Json

  /** The modelled kinds of valueFrom, in the order the source looks for them. */
  datatype Source = ConfigMapKey | SecretKey | FieldPath | ResourceField

  function KeyOf(s: Source): string {
    match s
    case ConfigMapKey => "configMapKeyRef"
    case SecretKey => "secretKeyRef"
    case FieldPath => "fieldRef"
    case ResourceField => "resourceFieldRef"
  }

  /** A form row. kind is None for the type 'value' and for any unknown type, which the code treats alike. */
  datatype Row = Row(
    name: string, kind: Option<Source>, value: string, cmName: string, secretName: string, key: string,
    fieldPath: string, resource: string, containerName: string, divisor: string, passthrough: Option<Fields>)

  const EMPTY_ROW := Row("", None, "", "", "", "", "", "", "", "", None)

  // ------------------------------------------------------------ rows to spec

  function One(key: string, text: string): Fields {
    if NonEmpty(text) then map[key := Str(Trim(text))] else map[]
  }

  /** The modelled keys of the source, from the row's non-empty fields. */
  function SourceOf(r: Row, s: Source): Fields {
    match s
    case ConfigMapKey => One("name", r.cmName) + One("key", r.key)
    case SecretKey => One("name", r.secretName) + One("key", r.key)
    case FieldPath => One("fieldPath", r.fieldPath)
    case ResourceField =>
      One("resource", r.resource) + One("containerName", r.containerName) + One("divisor", r.divisor)
  }

  /** The fields a row of this kind must have, all filled in. */
  predicate Complete(r: Row, s: Source) {
    match s
    case ConfigMapKey => NonEmpty(r.cmName) && NonEmpty(r.key)
    case SecretKey => NonEmpty(r.secretName) && NonEmpty(r.key)
    case FieldPath => NonEmpty(r.fieldPath)
    case ResourceField => NonEmpty(r.resource)
  }

  function PassValueFrom(p: Option<Fields>): Option<Json> {
    if p.Some? then Field(p.value, "valueFrom") else None
  }

  function FullSource(r: Row, s: Source): Fields {
    if r.passthrough.Some? && !Truthy(PassValueFrom(r.passthrough)) then SourceOf(r, s) + r.passthrough.value
    else SourceOf(r, s)
  }

  function ValueEntry(name: string, value: string, vf: Option<Json>): Fields {
    var entry := if Truthy(vf) then map["name" := Str(name), "valueFrom" := vf.value] else map["name" := Str(name)];
    if !Truthy(vf) || NonEmpty(value) then entry["value" := Str(value)] else entry
  }

  function SourceEntry(name: string, s: Source, src: Fields): Fields {
    map["name" := Str(name), "valueFrom" := Obj(map[KeyOf(s) := Obj(src)])]
  }

  /** What one row contributes to the env list; None is a row that is skipped. */
  function ToEntry(r: Row): Option<Fields> {
    if !NonEmpty(r.name) then None
    else if r.kind.None? then Some(ValueEntry(Trim(r.name), r.value, PassValueFrom(r.passthrough)))
    else if !Complete(r, r.kind.value) then None
    else Some(SourceEntry(Trim(r.name), r.kind.value, FullSource(r, r.kind.value)))
  }

  function Emitted(r: Row): seq<Fields> {
    var e := ToEntry(r);
    if e.Some? then [e.value] else []
  }

  function EnvRowsToSpec(rows: seq<Row>): seq<Fields> { FlatMap(Emitted, rows) }

  method WriteEnv(rows: seq<Row>) returns (out: seq<Fields>)
    ensures out == EnvRowsToSpec(rows)
  {
    out := PushAll(Emitted, rows);
  }

  // ------------------------------------------------------------ spec to rows

  /** The entries of an object or of an array. */
  function EntriesOf(v: Json): Fields {
    match v
    case Obj(fields) => fields
    case Arr(items, _) => ArrayEntries(items)
    case _ => map[]
  }

  function ArrayEntries(items: seq<Json>): Fields {
    if items == [] then map[] else ArrayEntries(items[..|items| - 1])[Decimal(|items| - 1) := items[|items| - 1]]
  }

  predicate IsObjectLike(v: Option<Json>) { v.Some? && (v.value.Obj? || v.value.Arr?) }

  /** The first modelled source present in a valueFrom. */
  function FindSource(vf: Fields): (r: Option<Source>)
    ensures r.Some? ==> KeyOf(r.value) in vf
  {
    if IsObjectLike(Field(vf, KeyOf(ConfigMapKey))) then Some(ConfigMapKey)
    else if IsObjectLike(Field(vf, KeyOf(SecretKey))) then Some(SecretKey)
    else if IsObjectLike(Field(vf, KeyOf(FieldPath))) then Some(FieldPath)
    else if IsObjectLike(Field(vf, KeyOf(ResourceField))) then Some(ResourceField)
    else None
  }

  function ModeledKeys(s: Source): set<string> {
    match s
    case ConfigMapKey => {"name", "key"}
    case SecretKey => {"name", "key"}
    case FieldPath => {"fieldPath"}
    case ResourceField => {"resource", "containerName", "divisor"}
  }

  function Rest(m: Fields, drop: set<string>): Option<Fields> {
    if Without(m, drop) == map[] then None else Some(Without(m, drop))
  }

  function RowFromSource(name: string, s: Source, src: Fields, pass: Option<Fields>): Row {
    var r := EMPTY_ROW.(name := name, kind := Some(s), passthrough := pass);
    match s
    case ConfigMapKey => r.(cmName := S(Field(src, "name")), key := S(Field(src, "key")))
    case SecretKey => r.(secretName := S(Field(src, "name")), key := S(Field(src, "key")))
    case FieldPath => r.(fieldPath := S(Field(src, "fieldPath")))
    case ResourceField =>
      r.(resource := S(Field(src, "resource")), containerName := S(Field(src, "containerName")),
        divisor := S(Field(src, "divisor")))
  }

  /** Unmodelled keys of the source, with any further keys of valueFrom laid over them. */
  function Passed(own: Option<Fields>, other: Option<Fields>): Option<Fields> {
    if other.None? then own else Some(own.GetOr(map[]) + other.value)
  }

  function FromEntry(e: Fields): Row {
    var vf, name, value := Field(e, "valueFrom"), S(Field(e, "name")), S(Field(e, "value"));
    if vf.Some? && vf.value.Obj? then
      var s := FindSource(vf.value.fields);
      if s.Some? then
        var src := EntriesOf(vf.value.fields[KeyOf(s.value)]);
        RowFromSource(name, s.value, src, Passed(Rest(src, ModeledKeys(s.value)),
          Rest(vf.value.fields, {KeyOf(s.value)})))
      else EMPTY_ROW.(name := name, value := value, passthrough := Some(map["valueFrom" := vf.value]))
    else EMPTY_ROW.(name := name, value := value)
  }

  function EnvRowsFromSpec(entries: seq<Fields>): seq<Row> { Map(FromEntry, entries) }

  // ------------------------------------------------------------ the round trip

  predicate AbsentOrClean(v: Option<Json>) { v.None? || CleanText(v) }

  /**
   A source that loses nothing: its modelled keys are clean strings, the required ones present, and
   it has no key of its own called valueFrom with a true value.
   */
  predicate CleanSource(s: Source, src: Fields) {
    && !Truthy(Field(src, "valueFrom"))
    && match s
       case ConfigMapKey => CleanText(Field(src, "name")) && CleanText(Field(src, "key"))
       case SecretKey => CleanText(Field(src, "name")) && CleanText(Field(src, "key"))
       case FieldPath => CleanText(Field(src, "fieldPath"))
       case ResourceField =>
         CleanText(Field(src, "resource")) && AbsentOrClean(Field(src, "containerName")) &&
           AbsentOrClean(Field(src, "divisor"))
  }

  /** The entries that survive editing, said without the editor. */
  predicate Canonical(e: Fields) {
    && CleanText(Field(e, "name"))
    && (var vf := Field(e, "valueFrom");
        if vf.Some? && vf.value.Obj? then
          var s := FindSource(vf.value.fields);
          if s.Some? then
            && e.Keys == {"name", "valueFrom"} && vf.value.fields.Keys == {KeyOf(s.value)}
            && vf.value.fields[KeyOf(s.value)].Obj? && CleanSource(s.value, vf.value.fields[KeyOf(s.value)].fields)
          else
            || e.Keys == {"name", "valueFrom"}
            || (e.Keys == {"name", "value", "valueFrom"} && e["value"].Str? && NonEmpty(e["value"].s))
        else e.Keys == {"name", "value"} && e["value"].Str?)
  }

  lemma BlankIsEmpty()
    ensures !NonEmpty("")
  {
  }

  /** What writing and reading back one modelled key does to it. */
  lemma OneIff(src: Fields, key: string)
    ensures Field(One(key, S(Field(src, key))), key) == Field(src, key) <==> AbsentOrClean(Field(src, key))
    ensures NonEmpty(S(Field(src, key))) && AbsentOrClean(Field(src, key)) <==> CleanText(Field(src, key))
    ensures forall k :: k in One(key, S(Field(src, key))) ==> k == key
  {
    var v := Field(src, key);
    CleanTextIff(v);
    BlankIsEmpty();
  }

  /** Every modelled key of the source is written as it was read. */
  predicate SameModeled(written: Fields, src: Fields, keys: set<string>) {
    && written.Keys <= keys
    && forall k :: k in keys ==> Field(written, k) == Field(src, k)
  }

  lemma Union1(src: Fields, wa: Fields, a: string)
    requires forall k :: k in wa ==> k == a
    ensures wa.Keys <= {a}
    ensures SameModeled(wa, src, {a}) <==> Field(wa, a) == Field(src, a)
  {
    assert a in {a};
  }

  lemma Union2(src: Fields, wa: Fields, wb: Fields, a: string, b: string)
    requires a != b && (forall k :: k in wa ==> k == a) && (forall k :: k in wb ==> k == b)
    ensures (wa + wb).Keys <= {a, b}
    ensures SameModeled(wa + wb, src, {a, b}) <==> Field(wa, a) == Field(src, a) && Field(wb, b) == Field(src, b)
  {
    assert Field(wa + wb, a) == Field(wa, a) && Field(wa + wb, b) == Field(wb, b);
    assert a in {a, b} && b in {a, b};
  }

  lemma Union3(src: Fields, wa: Fields, wb: Fields, wc: Fields, a: string, b: string, c: string)
    requires a != b && b != c && a != c
    requires (forall k :: k in wa ==> k == a) && (forall k :: k in wb ==> k == b) && (forall k :: k in wc ==> k == c)
    ensures (wa + wb + wc).Keys <= {a, b, c}
    ensures SameModeled(wa + wb + wc, src, {a, b, c}) <==>
      Field(wa, a) == Field(src, a) && Field(wb, b) == Field(src, b) && Field(wc, c) == Field(src, c)
  {
    var w := wa + wb + wc;
    assert Field(w, a) == Field(wa, a) && Field(w, b) == Field(wb, b) && Field(w, c) == Field(wc, c);
    assert a in {a, b, c} && b in {a, b, c} && c in {a, b, c};
  }

  /**
   Key a of src, read into a field whose text is not blank iff `filled`, and written again as w:
   what OneIff says of it.
   */
  predicate ReadBack(src: Fields, a: string, w: Fields, filled: bool) {
    && (forall k :: k in w ==> k == a)
    && (Field(w, a) == Field(src, a) <==> AbsentOrClean(Field(src, a)))
    && (filled && AbsentOrClean(Field(src, a)) <==> CleanText(Field(src, a)))
  }

  lemma ReadBackOne(src: Fields, a: string)
    ensures ReadBack(src, a, One(a, S(Field(src, a))), NonEmpty(S(Field(src, a))))
  {
    OneIff(src, a);
  }

  lemma ReadBack1(src: Fields, a: string, wa: Fields, fa: bool)
    requires ReadBack(src, a, wa, fa)
    ensures wa.Keys <= {a}
    ensures CleanText(Field(src, a)) <==> fa && SameModeled(wa, src, {a})
  {
    Union1(src, wa, a);
  }

  lemma ReadBack2(src: Fields, a: string, wa: Fields, fa: bool, b: string, wb: Fields, fb: bool)
    requires a != b && ReadBack(src, a, wa, fa) && ReadBack(src, b, wb, fb)
    ensures (wa + wb).Keys <= {a, b}
    ensures CleanText(Field(src, a)) && CleanText(Field(src, b)) <==> fa && fb && SameModeled(wa + wb, src, {a, b})
  {
    Union2(src, wa, wb, a, b);
  }

  lemma ReadBack3(src: Fields, a: string, wa: Fields, fa: bool, b: string, wb: Fields, c: string, wc: Fields, fb: bool,
      fc: bool)
    requires a != b && b != c && a != c
    requires ReadBack(src, a, wa, fa) && ReadBack(src, b, wb, fb) && ReadBack(src, c, wc, fc)
    ensures (wa + wb + wc).Keys <= {a, b, c}
    ensures CleanText(Field(src, a)) && AbsentOrClean(Field(src, b)) && AbsentOrClean(Field(src, c)) <==>
      fa && SameModeled(wa + wb + wc, src, {a, b, c})
  {
    Union3(src, wa, wb, wc, a, b, c);
  }

  /** The modelled part of a source survives, and the row is complete, exactly when it is clean. */
  predicate ModeledSurvives(s: Source, src: Fields, r: Row) {
    && SourceOf(r, s).Keys <= ModeledKeys(s)
    && (CleanSource(s, src) <==>
          !Truthy(Field(src, "valueFrom")) && Complete(r, s) && SameModeled(SourceOf(r, s), src, ModeledKeys(s)))
  }

  lemma ConfigMapSurvives(src: Fields, name: string, pass: Option<Fields>)
    ensures ModeledSurvives(ConfigMapKey, src, RowFromSource(name, ConfigMapKey, src, pass))
  {
    var n, k := S(Field(src, "name")), S(Field(src, "key"));
    ReadBackOne(src, "name");
    ReadBackOne(src, "key");
    ReadBack2(src, "name", One("name", n), NonEmpty(n), "key", One("key", k), NonEmpty(k));
  }

  lemma SecretSurvives(src: Fields, name: string, pass: Option<Fields>)
    ensures ModeledSurvives(SecretKey, src, RowFromSource(name, SecretKey, src, pass))
  {
    var n, k := S(Field(src, "name")), S(Field(src, "key"));
    ReadBackOne(src, "name");
    ReadBackOne(src, "key");
    ReadBack2(src, "name", One("name", n), NonEmpty(n), "key", One("key", k), NonEmpty(k));
  }

  lemma FieldPathSurvives(src: Fields, name: string, pass: Option<Fields>)
    ensures ModeledSurvives(FieldPath, src, RowFromSource(name, FieldPath, src, pass))
  {
    var f := S(Field(src, "fieldPath"));
    ReadBackOne(src, "fieldPath");
    ReadBack1(src, "fieldPath", One("fieldPath", f), NonEmpty(f));
  }

  lemma ResourceSurvives(src: Fields, name: string, pass: Option<Fields>)
    ensures ModeledSurvives(ResourceField, src, RowFromSource(name, ResourceField, src, pass))
  {
    var r, c, d := S(Field(src, "resource")), S(Field(src, "containerName")), S(Field(src, "divisor"));
    ReadBackOne(src, "resource");
    ReadBackOne(src, "containerName");
    ReadBackOne(src, "divisor");
    ReadBack3(src, "resource", One("resource", r), NonEmpty(r), "containerName", One("containerName", c),
      "divisor", One("divisor", d), NonEmpty(c), NonEmpty(d));
  }

  lemma SourceSurvives(s: Source, src: Fields, name: string, pass: Option<Fields>)
    ensures ModeledSurvives(s, src, RowFromSource(name, s, src, pass))
  {
    match s
    case ConfigMapKey => ConfigMapSurvives(src, name, pass);
    case SecretKey => SecretSurvives(src, name, pass);
    case FieldPath => FieldPathSurvives(src, name, pass);
    case ResourceField => ResourceSurvives(src, name, pass);
  }

  lemma WithoutSplit(m: Fields, drop: set<string>, kept: Fields)
    requires kept.Keys <= drop
    ensures kept + Without(m, drop) == m <==> SameModeled(kept, m, drop)
  {
    var w := kept + Without(m, drop);
    forall k ensures Field(w, k) == if k in drop then Field(kept, k) else Field(m, k) {
    }
    if SameModeled(kept, m, drop) {
      forall k ensures k in w <==> k in m {
        assert Field(w, k) == Field(m, k);
      }
      forall k | k in m ensures w[k] == m[k] {
        assert Field(w, k) == Field(m, k);
      }
    }
  }

  /** The full source written back, with the unmodelled keys carried in the row, is the one read. */
  lemma FullSourceIff(s: Source, src: Fields, name: string)
    ensures var r := RowFromSource(name, s, src, Rest(src, ModeledKeys(s)));
      CleanSource(s, src) <==> Complete(r, s) && FullSource(r, s) == src
  {
    var keys := ModeledKeys(s);
    var pass := Rest(src, keys);
    var r := RowFromSource(name, s, src, pass);
    SourceSurvives(s, src, name, pass);
    var kept := SourceOf(r, s);
    WithoutSplit(src, keys, kept);
    assert "valueFrom" !in keys;
    assert PassValueFrom(pass) == if pass.Some? then Field(src, "valueFrom") else None;
    assert pass.None? ==> kept + Without(src, keys) == kept && Field(src, "valueFrom").None?;
    if Truthy(Field(src, "valueFrom")) {
      assert "valueFrom" !in kept && "valueFrom" in src;
    }
  }

  /** An entry without a valueFrom object. */
  lemma PlainIff(e: Fields)
    requires !(Field(e, "valueFrom").Some? && Field(e, "valueFrom").value.Obj?)
    ensures ToEntry(FromEntry(e)) == Some(e) <==> Canonical(e)
  {
    var name, value := S(Field(e, "name")), S(Field(e, "value"));
    CleanTextIff(Field(e, "name"));
    assert FromEntry(e) == EMPTY_ROW.(name := name, value := value);
    if NonEmpty(name) {
      var out := map["name" := Str(Trim(name)), "value" := Str(value)];
      assert ToEntry(FromEntry(e)) == Some(out);
      assert out.Keys == {"name", "value"};
      if Canonical(e) {
        assert forall k :: k in out ==> k in e && out[k] == e[k];
        assert out == e;
      }
      if out == e {
        assert Field(e, "name") == Some(Str(Trim(name)));
      }
    }
  }

  /** An entry whose valueFrom object has none of the modelled sources. */
  lemma UnknownSourceIff(e: Fields)
    requires Field(e, "valueFrom").Some? && Field(e, "valueFrom").value.Obj? &&
      FindSource(Field(e, "valueFrom").value.fields).None?
    ensures ToEntry(FromEntry(e)) == Some(e) <==> Canonical(e)
  {
    var name, value, vf := S(Field(e, "name")), S(Field(e, "value")), e["valueFrom"];
    CleanTextIff(Field(e, "name"));
    BlankIsEmpty();
    if NonEmpty(name) {
      var short := map["name" := Str(Trim(name)), "valueFrom" := vf];
      var out := if NonEmpty(value) then short["value" := Str(value)] else short;
      assert ToEntry(FromEntry(e)) == Some(out);
      assert short.Keys == {"name", "valueFrom"};
      assert out.Keys == if NonEmpty(value) then {"name", "value", "valueFrom"} else {"name", "valueFrom"};
      if Canonical(e) {
        assert e.Keys == out.Keys;
        assert forall k :: k in out ==> out[k] == e[k];
        assert out == e;
      }
      if out == e {
        assert Field(e, "name") == Some(Str(Trim(name)));
      }
    }
  }

  lemma TwoKeyMap(out: Fields, e: Fields, a: string, b: string)
    requires out.Keys == {a, b}
    ensures out == e <==> e.Keys == {a, b} && e[a] == out[a] && e[b] == out[b]
  {
    if e.Keys == {a, b} && e[a] == out[a] && e[b] == out[b] {
      assert forall k :: k in out ==> k == a || k == b;
    }
  }

  lemma OneKeyMap(m: Fields, key: string, v: Json)
    ensures m == map[key := v] <==> m.Keys == {key} && m[key] == v
  {
    if m.Keys == {key} && m[key] == v {
      assert forall k :: k in m ==> k == key;
    }
  }

  lemma OnlyKey(vf: Fields, key: string)
    requires key in vf
    ensures Rest(vf, {key}).None? <==> vf.Keys == {key}
  {
    var w := Without(vf, {key});
    if w == map[] {
      forall k | k in vf ensures k == key {
        assert k != key ==> k in w;
      }
    }
    if vf.Keys == {key} {
      assert forall k :: k in w ==> k in vf.Keys && k != key;
    }
  }

  /** When an entry made of one source is the one at hand. */
  lemma SourceEntryIs(e: Fields, name: string, s: Source, full: Fields)
    requires Field(e, "valueFrom").Some? && Field(e, "valueFrom").value.Obj? && KeyOf(s) in e["valueFrom"].fields
    ensures SourceEntry(name, s, full) == e <==>
      && e.Keys == {"name", "valueFrom"} && e["name"] == Str(name)
      && e["valueFrom"].fields.Keys == {KeyOf(s)} && e["valueFrom"].fields[KeyOf(s)] == Obj(full)
  {
    TwoKeyMap(SourceEntry(name, s, full), e, "name", "valueFrom");
    OneKeyMap(e["valueFrom"].fields, KeyOf(s), Obj(full));
  }

  /** The row of an entry with a modelled source, where valueFrom holds nothing else. */
  lemma RowOfSource(e: Fields, s: Source)
    requires Field(e, "valueFrom").Some? && Field(e, "valueFrom").value.Obj? &&
      FindSource(Field(e, "valueFrom").value.fields) == Some(s)
    requires e["valueFrom"].fields.Keys == {KeyOf(s)}
    ensures
      var src := EntriesOf(e["valueFrom"].fields[KeyOf(s)]);
      FromEntry(e) == RowFromSource(S(Field(e, "name")), s, src, Rest(src, ModeledKeys(s)))
  {
    OnlyKey(e["valueFrom"].fields, KeyOf(s));
  }

  lemma WrittenSource(e: Fields, s: Source)
    requires Field(e, "valueFrom").Some? && Field(e, "valueFrom").value.Obj? &&
      FindSource(Field(e, "valueFrom").value.fields) == Some(s)
    ensures
      var r, name := FromEntry(e), S(Field(e, "name"));
      ToEntry(r) == if NonEmpty(name) && Complete(r, s) then Some(SourceEntry(Trim(name), s, FullSource(r, s)))
        else None
  {
  }

  /** An entry with a modelled source. */
  lemma SourceIff(e: Fields, s: Source)
    requires Field(e, "valueFrom").Some? && Field(e, "valueFrom").value.Obj? &&
      FindSource(Field(e, "valueFrom").value.fields) == Some(s)
    ensures ToEntry(FromEntry(e)) == Some(e) <==> Canonical(e)
  {
    var name, vf, r := S(Field(e, "name")), e["valueFrom"].fields, FromEntry(e);
    CleanTextIff(Field(e, "name"));
    WrittenSource(e, s);
    SourceEntryIs(e, Trim(name), s, FullSource(r, s));
    if vf.Keys == {KeyOf(s)} {
      RowOfSource(e, s);
      FullSourceIff(s, EntriesOf(vf[KeyOf(s)]), name);
    }
  }

  /**
   The round trip through the form gives an env entry back unchanged exactly when it is canonical;
   unmodelled keys of the source, and whole unmodelled sources, come back as they were.
   */
  lemma EnvEntryLosslessIff(e: Fields)
    ensures ToEntry(FromEntry(e)) == Some(e) <==> Canonical(e)
  {
    var vf := Field(e, "valueFrom");
    if vf.Some? && vf.value.Obj? {
      var s := FindSource(vf.value.fields);
      if s.Some? { SourceIff(e, s.value); } else { UnknownSourceIff(e); }
    } else {
      PlainIff(e);
    }
  }

  /** A whole env list survives the form exactly when each of its entries is canonical. */
  lemma EnvLosslessIff(es: seq<Fields>)
    ensures EnvRowsToSpec(EnvRowsFromSpec(es)) == es <==> forall i :: 0 <= i < |es| ==> Canonical(es[i])
  {
    var rows := EnvRowsFromSpec(es);
    forall i | 0 <= i < |es| ensures ToEntry(rows[i]) == Some(es[i]) <==> Canonical(es[i]) {
      EnvEntryLosslessIff(es[i]);
    }
    OneForEach(ToEntry, Emitted, rows, es);
  }

  // ------------------------------------------------------------ the gate

  /** Nothing at all is filled in. */
  predicate Blank(r: Row) {
    && !NonEmpty(r.name)
    && if r.kind.None? then !NonEmpty(r.value)
       else match r.kind.value
         case ConfigMapKey => !NonEmpty(r.cmName) && !NonEmpty(r.key)
         case SecretKey => !NonEmpty(r.secretName) && !NonEmpty(r.key)
         case FieldPath => !NonEmpty(r.fieldPath)
         case ResourceField => !NonEmpty(r.resource) && !NonEmpty(r.containerName) && !NonEmpty(r.divisor)
  }

  function Lacks(field: string, text: string): seq<string> { if NonEmpty(text) then [] else [field] }

  /** The names of the fields a half-filled row lacks, the name first. */
  function Missing(r: Row): seq<string> {
    Lacks("name", r.name) +
    if r.kind.None? then []
    else match r.kind.value
      case ConfigMapKey => Lacks("cmName", r.cmName) + Lacks("key", r.key)
      case SecretKey => Lacks("secretName", r.secretName) + Lacks("key", r.key)
      case FieldPath => Lacks("fieldPath", r.fieldPath)
      case ResourceField => Lacks("resource", r.resource)
  }

  datatype RowError = RowError(index: nat, name: string, missing: seq<string>)

  predicate Faulty(r: Row) { !Blank(r) && Missing(r) != [] }

  function ReportOf(index: nat, r: Row): seq<RowError> {
    if Faulty(r) then [RowError(index, r.name, Missing(r))] else []
  }

  function Reports(report: (nat, Row) -> seq<RowError>, rows: seq<Row>): seq<RowError> {
    if rows == [] then []
    else
      var n := |rows| - 1;
      Reports(report, rows[..n]) + report(n, rows[n])
  }

  function Errors(rows: seq<Row>): seq<RowError> { Reports(ReportOf, rows) }

  method EnvRefErrors(rows: seq<Row>) returns (errs: seq<RowError>)
    ensures errs == Errors(rows)
  {
    errs := [];
    for i := 0 to |rows|
      invariant errs == Errors(rows[..i])
    {
      assert rows[..i + 1][..i] == rows[..i];
      assert Errors(rows[..i + 1]) == Errors(rows[..i]) + ReportOf(i, rows[i]);
      var r := rows[i];
      if Blank(r) { continue; }
      var missing := Missing(r);
      if missing != [] { errs := errs + [RowError(i, r.name, missing)]; }
    }
    assert rows[..|rows|] == rows;
  }

  lemma {:induction false} ReportsAreFaulty(report: (nat, Row) -> seq<RowError>, faulty: Row -> bool, rows: seq<Row>)
    requires forall i, r :: report(i, r) == [] <==> !faulty(r)
    requires forall i, r, e :: e in report(i, r) ==> e.index == i
    ensures forall e :: e in Reports(report, rows) ==> e.index < |rows| && faulty(rows[e.index])
    ensures Reports(report, rows) == [] <==> forall i :: 0 <= i < |rows| ==> !faulty(rows[i])
  {
    if rows != [] {
      var n := |rows| - 1;
      ReportsAreFaulty(report, faulty, rows[..n]);
      assert forall i :: 0 <= i < n ==> rows[..n][i] == rows[i];
    }
  }

  /**
   The gate is silent exactly when every row that is not blank is written, and it blames only rows that
   would be lost.
   */
  lemma GateIffWritten(rows: seq<Row>)
    ensures forall e :: e in Errors(rows) ==> e.index < |rows| && !Blank(rows[e.index]) && ToEntry(rows[e.index]).None?
    ensures Errors(rows) == [] <==> forall i :: 0 <= i < |rows| && !Blank(rows[i]) ==> ToEntry(rows[i]).Some?
  {
    var faulty := (r: Row) => !Blank(r) && ToEntry(r).None?;
    forall i, r ensures ReportOf(i, r) == [] <==> !faulty(r) { MissingIff(r); }
    ReportsAreFaulty(ReportOf, faulty, rows);
  }

  lemma MissingIff(r: Row)
    ensures Missing(r) == [] <==> ToEntry(r).Some?
  {
  }

  /** When the gate finds nothing, the list written has exactly one entry for each row that is not blank. */
  lemma {:induction false} GatedRowsAreWritten(rows: seq<Row>)
    requires Errors(rows) == []
    ensures EnvRowsToSpec(rows) == FlatMap(Emitted, Filter((r: Row) => !Blank(r), rows))
    ensures |EnvRowsToSpec(rows)| == |Filter((r: Row) => !Blank(r), rows)|
  {
    GateIffWritten(rows);
    OneEach(rows);
  }

  lemma {:induction false} OneEach(rows: seq<Row>)
    requires forall i :: 0 <= i < |rows| && !Blank(rows[i]) ==> ToEntry(rows[i]).Some?
    ensures EnvRowsToSpec(rows) == FlatMap(Emitted, Filter((r: Row) => !Blank(r), rows))
    ensures |EnvRowsToSpec(rows)| == |Filter((r: Row) => !Blank(r), rows)|
  {
    if rows != [] {
      OneEach(rows[1..]);
    }
  }

  // ------------------------------------------------------------ envFrom

  /** One row of envFrom; secret tells secretRef from configMapRef. */
  datatype FromRow = FromRow(secret: bool, name: string, passthrough: Option<Fields>)

  function RefKey(secret: bool): string { if secret then "secretRef" else "configMapRef" }

  function ObjectFields(v: Option<Json>): Option<Fields> {
    if v.Some? && v.value.Obj? then Some(v.value.fields) else None
  }

  function FromRowToEntry(r: FromRow): Option<Fields> {
    if !NonEmpty(r.name) then r.passthrough
    else
      var key, pass := RefKey(r.secret), r.passthrough.GetOr(map[]);
      var ref := map["name" := Str(Trim(r.name))] + ObjectFields(Field(pass, key)).GetOr(map[]);
      Some(map[key := Obj(ref)] + Without(pass, {key}))
  }

  /** The name inside a reference, and the reference's other keys. */
  function RefName(ref: Option<Json>): string {
    var fields := ObjectFields(ref);
    if fields.Some? then S(Field(fields.value, "name")) else ""
  }

  function RefEntries(ref: Option<Json>): Fields { if ref.Some? then EntriesOf(ref.value) else map[] }

  function EntryToFromRow(e: Fields): FromRow {
    if Truthy(Field(e, "configMapRef")) || Truthy(Field(e, "secretRef")) then
      var secret := !Truthy(Field(e, "configMapRef"));
      var key := RefKey(secret);
      var rest := Without(e, {key});
      var refRest := Without(RefEntries(Field(e, key)), {"name"});
      var pass := if refRest != map[] then rest[key := Obj(refRest)] else rest;
      FromRow(secret, RefName(Field(e, key)), if pass != map[] then Some(pass) else None)
    else FromRow(false, "", Some(e))
  }

  function FromEmitted(r: FromRow): seq<Fields> {
    var e := FromRowToEntry(r);
    if e.Some? then [e.value] else []
  }

  method WriteEnvFrom(rows: seq<FromRow>) returns (out: seq<Fields>)
    ensures out == FlatMap(FromEmitted, rows)
  {
    out := PushAll(FromEmitted, rows);
  }

  /**
   The envFrom entries that survive: an entry whose reference is an object with a clean name, or with
   keys but no name at all; and any entry that has no true configMapRef or secretRef.
   */
  predicate CanonicalFrom(e: Fields) {
    if Truthy(Field(e, "configMapRef")) || Truthy(Field(e, "secretRef")) then
      var ref := ObjectFields(Field(e, RefKey(!Truthy(Field(e, "configMapRef")))));
      ref.Some? && (if "name" in ref.value then CleanText(Field(ref.value, "name")) else ref.value != map[])
    else true
  }

  /** An entry of a shape the editor does not know. */
  lemma UnknownFromIff(e: Fields)
    requires !Truthy(Field(e, "configMapRef")) && !Truthy(Field(e, "secretRef"))
    ensures FromRowToEntry(EntryToFromRow(e)) == Some(e)
  {
    BlankIsEmpty();
  }

  lemma PutBack(m: Fields, key: string, v: Json, pass: Fields)
    requires Without(pass, {key}) == Without(m, {key})
    ensures map[key := v] + Without(pass, {key}) == m <==> Field(m, key) == Some(v)
  {
    var w := map[key := v] + Without(pass, {key});
    assert Field(w, key) == Some(v);
    if Field(m, key) == Some(v) {
      forall k ensures Field(w, k) == Field(m, k) {
        assert k != key ==> Field(Without(pass, {key}), k) == Field(Without(m, {key}), k) == Field(m, k);
      }
      SameFields(w, m);
    }
  }

  /** What the row of a reference keeps aside: the entry's other keys, and the reference's other keys. */
  function KeptAside(e: Fields, key: string, refRest: Fields): Fields {
    var rest := Without(e, {key});
    if refRest != map[] then rest[key := Obj(refRest)] else rest
  }

  lemma KeptAsideRest(e: Fields, key: string, refRest: Fields)
    ensures Without(KeptAside(e, key, refRest), {key}) == Without(e, {key})
    ensures ObjectFields(Field(KeptAside(e, key, refRest), key)).GetOr(map[]) == refRest
  {
  }

  lemma NoneOrEmpty(pass: Fields)
    ensures (if pass != map[] then Some(pass) else None).GetOr(map[]) == pass
  {
  }

  /** A reference with a name comes back when the name is clean. */
  lemma NamedRefIff(e: Fields, key: string, ref: Fields, name: string)
    requires Field(e, key) == Some(Obj(ref)) && name == S(Field(ref, "name")) && NonEmpty(name)
    ensures map[key := Obj(map["name" := Str(Trim(name))] + Without(ref, {"name"}))] + Without(e, {key}) == e <==>
      CleanText(Field(ref, "name"))
  {
    PutBack(ref, "name", Str(Trim(name)), ref);
    CleanTextIff(Field(ref, "name"));
    PutBack(e, key, Obj(map["name" := Str(Trim(name))] + Without(ref, {"name"})), e);
  }

  /** A nameless reference is passed through, and comes back when it has keys and none of them is the name. */
  lemma NamelessRefIff(e: Fields, key: string)
    requires Field(e, key).Some?
    ensures
      var kept := KeptAside(e, key, Without(RefEntries(Field(e, key)), {"name"}));
      kept != map[] && kept == e <==> e[key].Obj? && e[key].fields != map[] && "name" !in e[key].fields
  {
    var entries := RefEntries(Field(e, key));
    var refRest := Without(entries, {"name"});
    assert key in e;
    assert "name" !in entries ==> refRest == entries;
    if refRest != map[] {
      assert Field(KeptAside(e, key, refRest), key) == Some(Obj(refRest));
      if e[key] == Obj(refRest) {
        assert forall k :: k in e && k != key ==> k in Without(e, {key});
        assert KeptAside(e, key, refRest) == e;
      }
    } else {
      assert key !in KeptAside(e, key, refRest);
    }
  }

  lemma KnownRow(e: Fields, secret: bool)
    requires Truthy(Field(e, "configMapRef")) || Truthy(Field(e, "secretRef"))
    requires secret == !Truthy(Field(e, "configMapRef"))
    ensures
      var key := RefKey(secret);
      var kept := KeptAside(e, key, Without(RefEntries(Field(e, key)), {"name"}));
      EntryToFromRow(e) == FromRow(secret, RefName(Field(e, key)), if kept != map[] then Some(kept) else None)
  {
  }

  lemma KnownFromIff(e: Fields, secret: bool)
    requires Truthy(Field(e, "configMapRef")) || Truthy(Field(e, "secretRef"))
    requires secret == !Truthy(Field(e, "configMapRef"))
    ensures FromRowToEntry(EntryToFromRow(e)) == Some(e) <==>
      var ref := ObjectFields(Field(e, RefKey(secret)));
      ref.Some? && if "name" in ref.value then CleanText(Field(ref.value, "name")) else ref.value != map[]
  {
    var key, row := RefKey(secret), EntryToFromRow(e);
    var refRest := Without(RefEntries(Field(e, key)), {"name"});
    var kept := KeptAside(e, key, refRest);
    KnownRow(e, secret);
    if NonEmpty(row.name) {
      BlankIsEmpty();
      var ref := e[key].fields;
      KeptAsideRest(e, key, refRest);
      NoneOrEmpty(kept);
      NamedRefIff(e, key, ref, row.name);
      BlankUnnamed(ref);
    } else {
      NamelessRefIff(e, key);
      if e[key].Obj? { CleanTextIff(Field(e[key].fields, "name")); }
    }
  }

  lemma BlankUnnamed(ref: Fields)
    requires NonEmpty(S(Field(ref, "name")))
    ensures "name" in ref
  {
    BlankIsEmpty();
  }

  lemma FromEntryLosslessIff(e: Fields)
    ensures FromRowToEntry(EntryToFromRow(e)) == Some(e) <==> CanonicalFrom(e)
  {
    if Truthy(Field(e, "configMapRef")) || Truthy(Field(e, "secretRef")) {
      KnownFromIff(e, !Truthy(Field(e, "configMapRef")));
    } else {
      UnknownFromIff(e);
    }
  }

  /** A whole envFrom list survives the form exactly when each of its entries is canonical. */
  lemma EnvFromLosslessIff(es: seq<Fields>)
    ensures FlatMap(FromEmitted, Map(EntryToFromRow, es)) == es <==> forall i :: 0 <= i < |es| ==> CanonicalFrom(es[i])
  {
    forall i | 0 <= i < |es| ensures FromRowToEntry(Map(EntryToFromRow, es)[i]) == Some(es[i]) <==>
      CanonicalFrom(es[i])
    {
      FromEntryLosslessIff(es[i]);
    }
    OneForEach(FromRowToEntry, FromEmitted, Map(EntryToFromRow, es), es);
  }
}
