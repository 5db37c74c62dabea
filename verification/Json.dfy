/** JSON values, with the JavaScript conversions the form code applies to them. */
module Json {
  import opened Wrappers
  import opened JsText

  /**
   A number or boolean is kept as its truth value and the text String() gives it; an array is kept
   with that text beside its items.
   */
  datatype Json = Null | Scalar(truthy: bool, text: string) | Str(s: string) | Arr(items: seq<Json>, text: string)
    | Obj(fields: map<string, Json>)

  type Fields = map<string, Json>

  function Field(m: Fields, k: string): Option<Json> { if k in m then Some(m[k]) else None }

  predicate Truthy(v: Option<Json>) {
    v.Some? && match v.value
      case Null => false
      case Scalar(truthy, _) => truthy
      case Str(s) => s != ""
      case _ => true
  }

  /** v == null ? '' : String(v) */
  function S(v: Option<Json>): string {
    if v.None? then ""
    else match v.value
      case Null => ""
      case Scalar(_, text) => text
      case Str(s) => s
      case Arr(_, text) => text
      case Obj(_) => "[object Object]"
  }

  predicate NonEmpty(s: string) { Trim(s) != "" }

  /** A string with something in it and no white space at its ends. */
  predicate CleanText(v: Option<Json>) { v.Some? && v.value.Str? && v.value.s != "" && Trimmed(v.value.s) }

  lemma CleanTextIff(v: Option<Json>)
    ensures CleanText(v) <==> NonEmpty(S(v)) && v == Some(Str(Trim(S(v))))
  {
    if v.Some? && v.value.Str? { TrimIsTrimmed(v.value.s); }
  }

  function Without(m: Fields, drop: set<string>): Fields { m - drop }

  lemma SameFields(a: Fields, b: Fields)
    requires forall k :: Field(a, k) == Field(b, k)
    ensures a == b
  {
    forall k ensures (k in a <==> k in b) && (k in a ==> a[k] == b[k]) {
      assert Field(a, k) == Field(b, k);
    }
  }
}
