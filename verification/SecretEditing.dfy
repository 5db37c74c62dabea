/**
 Editing a Secret: base64 in the store, text in the view (src/composables/useResourceMappers.js,
 src/views/NsSecretDetail.vue), encoding on save (src/stores/cluster/crud.js) and the data and
 stringData blocks sent to the API server (src/stores/cluster/yaml.js).
 */
module SecretEditing {
  import opened Wrappers
  import opened Seqs
  import opened OrderedMap

  /**
   The platform's codecs over byte strings B: base64, and UTF-8. utf8 fails on a lone surrogate,
   text on bytes that are not UTF-8, unb64 on text that is not base64.
   */
  datatype Codec<!B> = Codec(b64: B -> string, unb64: string -> Option<B>, utf8: string -> Option<B>,
    text: B -> Option<string>)

  ghost predicate Lawful<B(!new)>(c: Codec<B>) {
    && (forall b :: c.unb64(c.b64(b)) == Some(b) && c.utf8(c.b64(b)).Some?)
    && (forall s :: c.utf8(s).Some? ==> c.text(c.utf8(s).value) == Some(s))
    && (forall b :: c.text(b).Some? ==> c.utf8(c.text(b).value) == Some(b))
  }

  /** The laws can be met with bytes that are not text among them. */
  lemma LawsCanBeMet() returns (c: Codec<(bool, string)>, b: (bool, string))
    ensures Lawful(c) && c.text(b).None?
  {
    c := Codec(
      (x: (bool, string)) => (if x.0 then "t" else "f") + x.1,
      t => if t == "" then None else Some((t[0] == 't', t[1..])),
      s => Some((true, s)),
      (x: (bool, string)) => if x.0 then Some(x.1) else None);
    b := (false, "");
    forall x ensures c.unb64(c.b64(x)) == Some(x) && c.utf8(c.b64(x)).Some? {
      assert c.b64(x)[1..] == x.1;
    }
  }

  /** encodeBase64: a string UTF-8 cannot encode is handed back as it is. */
  function EncodeBase64<B>(c: Codec<B>, s: string): string {
    if c.utf8(s).Some? then c.b64(c.utf8(s).value) else s
  }

  function TryDecodeBase64<B>(c: Codec<B>, s: string): Option<string> {
    if c.unb64(s).Some? then c.text(c.unb64(s).value) else None
  }

  function DecodeBase64<B>(c: Codec<B>, s: string): string { TryDecodeBase64(c, s).GetOr(s) }

  type Data = Entries<string, string>

  // ------------------------------------------------------------ saving

  function EncodeOne<B>(c: Codec<B>, base: Data, e: (string, string)): (string, string) {
    (e.0, if Get(base, e.0) == Some(e.1) then e.1 else EncodeBase64(c, e.1))
  }

  function Encoder<B>(c: Codec<B>, base: Data): ((string, string)) -> (string, string) { e => EncodeOne(c, base, e) }

  function Encoded<B>(c: Codec<B>, data: Data, base: Data): Data { Map(Encoder(c, base), data) }

  method EncodeSecretData<B>(c: Codec<B>, data: Data, base: Data) returns (out: Data)
    ensures out == Encoded(c, data, base)
  {
    out := [];
    for i := 0 to |data|
      invariant out == Encoded(c, data[..i], base)
    {
      out := out + [EncodeOne(c, base, data[i])];
    }
    assert data[..|data|] == data;
  }

  /** What the manifest carries: base64 under data, plain text under stringData. */
  datatype Sent = Sent(data: Data, stringData: Data)

  function RawOf<B>(c: Codec<B>, e: (string, string)): Data { if TryDecodeBase64(c, e.1).Some? then [] else [e] }

  function TextOf<B>(c: Codec<B>, e: (string, string)): Data {
    var d := TryDecodeBase64(c, e.1);
    if d.Some? then [(e.0, d.value)] else []
  }

  function Raws<B>(c: Codec<B>): ((string, string)) -> Data { e => RawOf(c, e) }

  function Texts<B>(c: Codec<B>): ((string, string)) -> Data { e => TextOf(c, e) }

  function Split<B>(c: Codec<B>, data: Data): Sent { Sent(FlatMap(Raws(c), data), FlatMap(Texts(c), data)) }

  method SplitSecret<B>(c: Codec<B>, data: Data) returns (sent: Sent)
    ensures sent == Split(c, data)
  {
    var strEntries, rawEntries: Data := [], [];
    for i := 0 to |data|
      invariant rawEntries == FlatMap(Raws(c), data[..i]) && strEntries == FlatMap(Texts(c), data[..i])
    {
      var d := TryDecodeBase64(c, data[i].1);
      FlatMapNext(Raws(c), data, i);
      FlatMapNext(Texts(c), data, i);
      if d.None? { rawEntries := rawEntries + [data[i]]; } else { strEntries := strEntries + [(data[i].0, d.value)]; }
    }
    assert data[..|data|] == data;
    sent := Sent(rawEntries, strEntries);
  }

  /** The bytes the API server stores under a key: stringData is taken as UTF-8 and wins over data, which is base64. */
  function Stored<B>(c: Codec<B>, sent: Sent, k: string): Option<B> {
    var plain, raw := Get(sent.stringData, k), Get(sent.data, k);
    if plain.Some? then c.utf8(plain.value) else if raw.Some? then c.unb64(raw.value) else None
  }

  /** The current data as the store holds it. */
  function Coder<B>(c: Codec<B>): ((string, B)) -> (string, string) { (e: (string, B)) => (e.0, c.b64(e.1)) }

  function AsData<B>(c: Codec<B>, secret: Entries<string, B>): Data { Map(Coder(c), secret) }

  /** The data as the detail page shows it for editing. */
  function Decoder<B>(c: Codec<B>): ((string, string)) -> (string, string) {
    (e: (string, string)) => (e.0, DecodeBase64(c, e.1))
  }

  function Shown<B>(c: Codec<B>, secret: Entries<string, B>): Data { Map(Decoder(c), AsData(c, secret)) }

  /** store.updateSecret with new data, or None for a change of labels or annotations only. */
  function Update<B>(c: Codec<B>, cur: Entries<string, B>, data: Option<Data>): Sent {
    Split(c, if data.Some? then Encoded(c, data.value, AsData(c, cur)) else AsData(c, cur))
  }

  /** store.addSecret. */
  function Add<B>(c: Codec<B>, data: Data): Sent { Split(c, Encoded(c, data, [])) }

  method AddSecret<B>(c: Codec<B>, data: Data) returns (sent: Sent)
    ensures sent == Add(c, data)
  {
    var encoded := EncodeSecretData(c, data, []);
    sent := SplitSecret(c, encoded);
  }

  method UpdateSecret<B>(c: Codec<B>, cur: Entries<string, B>, data: Option<Data>) returns (sent: Sent)
    ensures sent == Update(c, cur, data)
  {
    var merged := AsData(c, cur);
    if data.Some? { merged := EncodeSecretData(c, data.value, merged); }
    sent := SplitSecret(c, merged);
  }

  // ------------------------------------------------------------ lookups through the pipeline

  lemma {:induction false} GetMapped<U, V>(f: ((string, U)) -> (string, V), m: Entries<string, U>, k: string)
    requires forall e :: f(e).0 == e.0
    ensures Get(Map(f, m), k) == if Get(m, k).Some? then Some(f((k, Get(m, k).value)).1) else None
  {
    if m != [] {
      assert Map(f, m)[1..] == Map(f, m[1..]);
      GetMapped(f, m[1..], k);
      assert f(m[0]).0 == m[0].0;
    }
  }

  lemma {:induction false} GetFlat(f: ((string, string)) -> Data, m: Data, k: string)
    requires forall e :: |f(e)| <= 1 && forall x :: x in f(e) ==> x.0 == e.0
    requires Distinct(Keys(m))
    ensures Get(m, k).None? ==> Get(FlatMap(f, m), k).None?
    ensures Get(m, k).Some? ==>
      var own := f((k, Get(m, k).value));
      Get(FlatMap(f, m), k) == if own == [] then None else Some(own[0].1)
  {
    if m != [] {
      FirstKey(m);
      GetFlat(f, m[1..], k);
      var own, others := f(m[0]), FlatMap(f, m[1..]);
      assert FlatMap(f, m) == own + others;
      if own != [] {
        assert own[0] in own;
        assert FlatMap(f, m)[0] == own[0] && FlatMap(f, m)[1..] == others;
      } else {
        assert FlatMap(f, m) == others;
      }
      assert m[0] == (m[0].0, m[0].1);
    }
  }

  /** One value goes into one block, and what that block makes of it are the bytes it stands for. */
  lemma SplitOne<B(!new)>(c: Codec<B>, k: string, v: string)
    requires Lawful(c)
    ensures
      var raw, plain := Raws(c)((k, v)), Texts(c)((k, v));
      if plain == [] then raw == [(k, v)] else |plain| == 1 && c.utf8(plain[0].1) == c.unb64(v)
  {
  }

  /** Splitting never changes what is stored: each key gets the bytes its base64 stands for. */
  lemma {:induction false} SplitKeepsBytes<B(!new)>(c: Codec<B>, data: Data, k: string)
    requires Lawful(c) && Distinct(Keys(data))
    ensures Stored(c, Split(c, data), k) == if Get(data, k).Some? then c.unb64(Get(data, k).value) else None
  {
    GetFlat(Raws(c), data, k);
    GetFlat(Texts(c), data, k);
    if Get(data, k).Some? { SplitOne(c, k, Get(data, k).value); }
  }

  lemma KeysOfMapped<U, V>(f: ((string, U)) -> (string, V), m: Entries<string, U>)
    requires forall e :: f(e).0 == e.0
    ensures Keys(Map(f, m)) == Keys(m)
  {
  }

  /** What the encoding makes of one value of the form. */
  lemma EncodedValue<B(!new)>(c: Codec<B>, cur: Entries<string, B>, data: Data, k: string, t: string)
    requires Distinct(Keys(data)) && Get(data, k) == Some(t)
    ensures Keys(Encoded(c, data, AsData(c, cur))) == Keys(data)
    ensures Get(Encoded(c, data, AsData(c, cur)), k) ==
      Some(if Get(cur, k).Some? && c.b64(Get(cur, k).value) == t then t else EncodeBase64(c, t))
  {
    var base := AsData(c, cur);
    KeysOfMapped(Encoder(c, base), data);
    GetMapped(Encoder(c, base), data, k);
    GetMapped(Coder(c), cur, k);
  }

  /** What a save stores under a key whose value in the form is t. */
  lemma {:induction false} UpdateStores<B(!new)>(c: Codec<B>, cur: Entries<string, B>, data: Data, k: string, t: string)
    requires Lawful(c) && Distinct(Keys(data)) && Get(data, k) == Some(t)
    ensures Stored(c, Update(c, cur, Some(data)), k) ==
      if Get(cur, k).Some? && c.b64(Get(cur, k).value) == t then Get(cur, k)
      else if c.utf8(t).Some? then c.utf8(t)
      else c.unb64(t)
  {
    EncodedValue(c, cur, data, k, t);
    SplitKeepsBytes(c, Encoded(c, data, AsData(c, cur)), k);
  }

  // ------------------------------------------------------------ the promises

  /** A change that leaves the data alone rewrites every key with the bytes it has. */
  lemma {:induction false} MetadataEditKeepsBytes<B(!new)>(c: Codec<B>, cur: Entries<string, B>, k: string)
    requires Lawful(c) && Distinct(Keys(cur))
    ensures Stored(c, Update(c, cur, None), k) == Get(cur, k)
  {
    KeysOfMapped(Coder(c), cur);
    SplitKeepsBytes(c, AsData(c, cur), k);
    GetMapped(Coder(c), cur, k);
  }

  lemma {:induction false} ShownValue<B(!new)>(c: Codec<B>, viewed: Entries<string, B>, k: string)
    requires Lawful(c)
    ensures Get(Shown(c, viewed), k) ==
      if Get(viewed, k).None? then None
      else var b := Get(viewed, k).value; Some(c.text(b).GetOr(c.b64(b)))
  {
    GetMapped(Coder(c), viewed, k);
    GetMapped(Decoder(c), AsData(c, viewed), k);
  }

  /**
   A key the user did not touch, of bytes b when the page was shown, keeps b exactly when: for text,
   the stored value is not some other value whose base64 happens to be that text; for bytes that are
   not text, the stored value is still b. `cur` is the secret as the save finds it.
   */
  lemma {:induction false} UntouchedKeepsBytesIff<B(!new)>(c: Codec<B>, viewed: Entries<string, B>,
      cur: Entries<string, B>, data: Data, k: string, b: B)
    requires Lawful(c) && Distinct(Keys(data))
    requires Get(viewed, k) == Some(b) && Get(data, k) == Get(Shown(c, viewed), k)
    ensures Stored(c, Update(c, cur, Some(data)), k) == Some(b) <==>
      if c.text(b).Some? then Get(cur, k).Some? && c.b64(Get(cur, k).value) == c.text(b).value ==>
        Get(cur, k) == Some(b)
      else Get(cur, k) == Some(b)
  {
    var t := c.text(b).GetOr(c.b64(b));
    ShownValue(c, viewed, k);
    UpdateStores(c, cur, data, k, t);
    SameBytesIff(c, b, Get(cur, k), t, Stored(c, Update(c, cur, Some(data)), k));
  }

  /** The value the form shows for bytes b, saved over curK. */
  lemma SameBytesIff<B(!new)>(c: Codec<B>, b: B, curK: Option<B>, t: string, stored: Option<B>)
    requires Lawful(c) && t == c.text(b).GetOr(c.b64(b))
    requires stored == if curK.Some? && c.b64(curK.value) == t then curK
      else if c.utf8(t).Some? then c.utf8(t) else c.unb64(t)
    ensures stored == Some(b) <==>
      if c.text(b).Some? then curK.Some? && c.b64(curK.value) == c.text(b).value ==> curK == Some(b)
      else curK == Some(b)
  {
    B64TellsApart(c, b, curK.GetOr(b));
    if c.text(b).None? { Shadow(c, b); }
  }

  lemma B64TellsApart<B(!new)>(c: Codec<B>, a: B, b: B)
    requires Lawful(c)
    ensures c.b64(a) == c.b64(b) <==> a == b
    ensures c.unb64(c.b64(a)) == Some(a) && c.utf8(c.b64(a)).Some?
  {
    assert c.unb64(c.b64(a)) == Some(a) && c.unb64(c.b64(b)) == Some(b);
  }

  /** Bytes that are not text are never what a string encodes to. */
  lemma Shadow<B(!new)>(c: Codec<B>, b: B)
    requires Lawful(c) && c.text(b).None?
    ensures forall s :: c.utf8(s) != Some(b)
  {
  }

  /** Without a change in between, every untouched key keeps its bytes, text or not. */
  lemma {:induction false} UntouchedKeepsBytes<B(!new)>(c: Codec<B>, cur: Entries<string, B>, data: Data, k: string)
    requires Lawful(c) && Distinct(Keys(data))
    requires Get(cur, k).Some? && Get(data, k) == Get(Shown(c, cur), k)
    ensures Stored(c, Update(c, cur, Some(data)), k) == Get(cur, k)
  {
    UntouchedKeepsBytesIff(c, cur, cur, data, k, Get(cur, k).value);
  }

  /**
   An edited key gets the new text in UTF-8, except that a text equal to the stored base64 leaves the
   stored bytes.
   */
  lemma {:induction false} EditedGetsText<B(!new)>(c: Codec<B>, cur: Entries<string, B>, data: Data, k: string,
      t: string)
    requires Lawful(c) && Distinct(Keys(data)) && Get(data, k) == Some(t) && c.utf8(t).Some?
    ensures Stored(c, Update(c, cur, Some(data)), k) == c.utf8(t) <==>
      (Get(cur, k).Some? && c.b64(Get(cur, k).value) == t ==> Get(cur, k) == c.utf8(t))
  {
    UpdateStores(c, cur, data, k, t);
  }

  /**
   What a save does to an untouched binary key that changed since the page was shown: the base64 text
   is encoded once more, so what is stored is that text and not the bytes.
   */
  lemma {:induction false} StaleBinaryIsEncodedTwice<B(!new)>(c: Codec<B>, viewed: Entries<string, B>,
      cur: Entries<string, B>, data: Data, k: string, b: B)
    requires Lawful(c) && Distinct(Keys(data)) && c.text(b).None?
    requires Get(viewed, k) == Some(b) && Get(data, k) == Get(Shown(c, viewed), k) && Get(cur, k) != Some(b)
    ensures Stored(c, Update(c, cur, Some(data)), k) == c.utf8(c.b64(b)) != Some(b)
  {
    ShownValue(c, viewed, k);
    UpdateStores(c, cur, data, k, c.b64(b));
    B64TellsApart(c, b, Get(cur, k).GetOr(b));
    Shadow(c, b);
  }

  /** Creating a secret encodes each text once. */
  lemma {:induction false} AddEncodesOnce<B(!new)>(c: Codec<B>, data: Data, k: string, t: string)
    requires Lawful(c) && Distinct(Keys(data)) && Get(data, k) == Some(t) && c.utf8(t).Some?
    ensures Stored(c, Add(c, data), k) == c.utf8(t)
  {
    KeysOfMapped(Encoder(c, []), data);
    SplitKeepsBytes(c, Encoded(c, data, []), k);
    GetMapped(Encoder(c, []), data, k);
  }

  /** A key left out of the form is in neither block of the manifest. */
  lemma {:induction false} RemovedIsNotSent<B(!new)>(c: Codec<B>, cur: Entries<string, B>, data: Data, k: string)
    requires Lawful(c) && Distinct(Keys(data)) && Get(data, k).None?
    ensures var sent := Update(c, cur, Some(data));
      Get(sent.data, k).None? && Get(sent.stringData, k).None?
  {
    KeysOfMapped(Encoder(c, AsData(c, cur)), data);
    GetMapped(Encoder(c, AsData(c, cur)), data, k);
    AbsentNotSent(c, Encoded(c, data, AsData(c, cur)), k);
  }

  lemma {:induction false} AbsentNotSent<B>(c: Codec<B>, data: Data, k: string)
    requires Distinct(Keys(data)) && Get(data, k).None?
    ensures Get(Split(c, data).data, k).None? && Get(Split(c, data).stringData, k).None?
  {
    GetFlat(Raws(c), data, k);
    GetFlat(Texts(c), data, k);
  }

  /** A value that is the base64 of a text is sent as that text under stringData, any other as it is under data. */
  lemma {:induction false} SplitSorts<B(!new)>(c: Codec<B>, data: Data, k: string, v: string)
    requires Distinct(Keys(data)) && Get(data, k) == Some(v)
    ensures
      var sent, bytes := Split(c, data), c.unb64(v);
      var plain := if bytes.Some? then c.text(bytes.value) else None;
      && Get(sent.stringData, k) == plain
      && Get(sent.data, k) == if plain.Some? then None else Some(v)
  {
    GetFlat(Raws(c), data, k);
    GetFlat(Texts(c), data, k);
  }

  /** No key is sent in both blocks. */
  lemma {:induction false} BlocksDoNotOverlap<B(!new)>(c: Codec<B>, data: Data, k: string)
    requires Distinct(Keys(data))
    ensures Get(Split(c, data).data, k).None? || Get(Split(c, data).stringData, k).None?
  {
    GetFlat(Raws(c), data, k);
    GetFlat(Texts(c), data, k);
  }
}
