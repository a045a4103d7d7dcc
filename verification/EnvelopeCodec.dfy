/** The text envelopes of migration 0018 and the names derived from a digest.
    SHA-256 and the JSON/base64 pair are parameters; `Faithful` is all that is assumed of them. */
module EnvelopeCodec {
  import opened Prelude

  const LEGACY_PROVIDER := "legacy-unknown"
  const VERSION_ENVELOPE_PREFIX := "__ls_0018_version_v1__:"
  const CACHE_ENVELOPE_PREFIX := "__ls_0018_cache_v1__:"
  const CACHE_RESTORE_PREFIX := "__ls_0018_cache_restore__:"

  /** A JSON value as far as the migration looks at it. */
  datatype Json = Null | Num(n: int) | Str(s: string) | Other

  /** The JSON object inside an envelope; a missing key reads as `Null`, as `dict.get` does. */
  datatype Payload = Payload(
    format: Json, id: Json, buildKey: Json, provider: Json, model: Json, errorMessage: Json)

  datatype Codec = Codec(
    digest: string -> string,
    pack: Payload -> string,
    unpack: string -> Option<Payload>)
  {
    ghost predicate Faithful() {
      && (forall a, b :: digest(a) == digest(b) ==> a == b)
      && (forall p :: unpack(pack(p)) == Some(p))
      && (forall s :: unpack(s).Some? ==> NoLonger(unpack(s).value, |s|))
    }
  }

  /** No string inside the object is longer than its encoded form. */
  predicate NoLonger(p: Payload, n: nat) {
    && (p.id.Str? ==> |p.id.s| <= n)
    && (p.buildKey.Str? ==> |p.buildKey.s| <= n)
    && (p.provider.Str? ==> |p.provider.s| <= n)
    && (p.model.Str? ==> |p.model.s| <= n)
    && (p.errorMessage.Str? ==> |p.errorMessage.s| <= n)
  }

  function Encode(c: Codec, prefix: string, p: Payload): string {
    prefix + c.pack(p)
  }

  /** Not an envelope at all, an envelope that does not decode, or a decoded object. */
  datatype Decoded = NotEnvelope | Malformed | Object(payload: Payload)

  function Decode(c: Codec, prefix: string, text: Option<string>): Decoded {
    if text.None? || !(prefix <= text.value) then NotEnvelope
    else match c.unpack(text.value[|prefix|..])
      case None => Malformed
      case Some(p) => if p.format == Num(1) then Object(p) else Malformed
  }

  /** Decoding inverts encoding, and whatever decodes is strictly longer than each string inside it. */
  lemma DecodeEncode(c: Codec, prefix: string, p: Payload)
    requires c.Faithful() && p.format == Num(1)
    ensures Decode(c, prefix, Some(Encode(c, prefix, p))) == Object(p)
    ensures prefix != "" ==> NoLonger(p, |Encode(c, prefix, p)| - 1)
  {
    var text := Encode(c, prefix, p);
    assert text[|prefix|..] == c.pack(p);
    assert c.unpack(c.pack(p)) == Some(p);
  }

  lemma DecodeShrinks(c: Codec, prefix: string, text: string)
    requires c.Faithful() && prefix != ""
    requires Decode(c, prefix, Some(text)).Object?
    ensures NoLonger(Decode(c, prefix, Some(text)).payload, |text| - 1)
  {
    var body := text[|prefix|..];
    assert NoLonger(c.unpack(body).value, |body|);
  }

  // ---------------------------------------------------------------- the assumptions can be met

  function Unary(n: nat): string {
    if n == 0 then "0" else "1" + Unary(n - 1)
  }

  /** A code in which no field is the beginning of another. */
  function Field(j: Json): string {
    match j
    case Null => "n"
    case Other => "o"
    case Num(n) => if n >= 0 then "p" + Unary(n) else "m" + Unary(-n)
    case Str(s) => "s" + Unary(|s|) + s
  }

  function PackFields(p: Payload): string {
    Field(p.format) +
      (Field(p.id) + (Field(p.buildKey) + (Field(p.provider) + (Field(p.model) + Field(p.errorMessage)))))
  }

  lemma {:induction false} UnaryPrefixFree(a: nat, b: nat, r: string, t: string)
    requires Unary(a) + r == Unary(b) + t
    ensures a == b && r == t
  {
    var x, y := Unary(a) + r, Unary(b) + t;
    assert x[0] == Unary(a)[0] && y[0] == Unary(b)[0];
    if a > 0 && b > 0 {
      assert x[1..] == Unary(a - 1) + r && y[1..] == Unary(b - 1) + t;
      UnaryPrefixFree(a - 1, b - 1, r, t);
    } else {
      assert x[1..] == r && y[1..] == t;
    }
  }

  lemma Associate(a: string, b: string, c: string)
    ensures (a + b) + c == a + (b + c)
  {
  }

  lemma SameLengthPrefixes(a: string, b: string, r: string, t: string)
    requires |a| == |b| && a + r == b + t
    ensures a == b && r == t
  {
    assert (a + r)[..|a|] == a && (b + t)[..|a|] == b;
    assert (a + r)[|a|..] == r && (b + t)[|a|..] == t;
  }

  lemma TextPrefixFree(a: string, b: string, r: string, t: string)
    requires (Unary(|a|) + a) + r == (Unary(|b|) + b) + t
    ensures a == b && r == t
  {
    Associate(Unary(|a|), a, r);
    Associate(Unary(|b|), b, t);
    UnaryPrefixFree(|a|, |b|, a + r, b + t);
    SameLengthPrefixes(a, b, r, t);
  }

  /** The letter a field starts with, and the rest of it. */
  function Tag(j: Json): char {
    match j
    case Null => 'n'
    case Other => 'o'
    case Num(n) => if n >= 0 then 'p' else 'm'
    case Str(_) => 's'
  }

  function Rest(j: Json): string {
    match j
    case Num(n) => Unary(if n >= 0 then n else -n)
    case Str(s) => Unary(|s|) + s
    case _ => ""
  }

  lemma TagAndRest(j: Json, r: string)
    ensures Field(j) + r == [Tag(j)] + (Rest(j) + r)
  {
    hide Unary;
    assert Field(j) == [Tag(j)] + Rest(j);
  }

  lemma FieldPrefixFree(a: Json, b: Json, r: string, t: string)
    requires Field(a) + r == Field(b) + t
    ensures a == b && r == t
  {
    TagAndRest(a, r);
    TagAndRest(b, t);
    hide Field, Unary;
    assert ([Tag(a)] + (Rest(a) + r))[0] == Tag(a) && ([Tag(b)] + (Rest(b) + t))[0] == Tag(b);
    assert ([Tag(a)] + (Rest(a) + r))[1..] == Rest(a) + r && ([Tag(b)] + (Rest(b) + t))[1..] == Rest(b) + t;
    RestPrefixFree(a, b, r, t);
  }

  lemma RestPrefixFree(a: Json, b: Json, r: string, t: string)
    requires Tag(a) == Tag(b) && Rest(a) + r == Rest(b) + t
    ensures a == b && r == t
  {
    hide Unary;
    match a
    case Num(n) => UnaryPrefixFree(if n >= 0 then n else -n, if b.n >= 0 then b.n else -b.n, r, t);
    case Str(s) => TextPrefixFree(s, b.s, r, t);
    case _ => assert "" + r == r && "" + t == t;
  }

  lemma PackFieldsInjective(p: Payload, q: Payload)
    requires PackFields(p) == PackFields(q)
    ensures p == q
  {
    hide Field;
    var p5, q5 := Field(p.model) + Field(p.errorMessage), Field(q.model) + Field(q.errorMessage);
    var p4, q4 := Field(p.provider) + p5, Field(q.provider) + q5;
    var p3, q3 := Field(p.buildKey) + p4, Field(q.buildKey) + q4;
    var p2, q2 := Field(p.id) + p3, Field(q.id) + q3;
    FieldPrefixFree(p.format, q.format, p2, q2);
    FieldPrefixFree(p.id, q.id, p3, q3);
    FieldPrefixFree(p.buildKey, q.buildKey, p4, q4);
    FieldPrefixFree(p.provider, q.provider, p5, q5);
    FieldPrefixFree(p.model, q.model, Field(p.errorMessage), Field(q.errorMessage));
    assert Field(p.errorMessage) + "" == Field(p.errorMessage) && Field(q.errorMessage) + "" == Field(q.errorMessage);
    FieldPrefixFree(p.errorMessage, q.errorMessage, "", "");
  }

  ghost function UnpackFields(s: string): Option<Payload> {
    if p :| PackFields(p) == s then Some(p) else None
  }

  lemma FieldIsLong(j: Json)
    ensures j.Str? ==> |j.s| <= |Field(j)|
  {
  }

  lemma PackIsLong(p: Payload)
    ensures NoLonger(p, |PackFields(p)|)
  {
    FieldIsLong(p.id);
    FieldIsLong(p.buildKey);
    FieldIsLong(p.provider);
    FieldIsLong(p.model);
    FieldIsLong(p.errorMessage);
    hide Field;
  }

  /** There is a codec that is faithful, so nothing is proved from contradictory assumptions. */
  lemma SomeCodecIsFaithful()
    ensures exists digest: string -> string, pack: Payload -> string, unpack: string -> Option<Payload> ::
      Codec(digest, pack, unpack).Faithful()
  {
    hide PackFields, NoLonger;
    var c := Codec((s: string) => s, (p: Payload) => PackFields(p), (s: string) => UnpackFields(s));
    forall p ensures c.unpack(c.pack(p)) == Some(p) {
      var q :| UnpackFields(PackFields(p)) == Some(q) && PackFields(q) == PackFields(p);
      PackFieldsInjective(q, p);
    }
    forall s | c.unpack(s).Some? ensures NoLonger(c.unpack(s).value, |s|) {
      PackIsLong(c.unpack(s).value);
    }
    assert Codec(c.digest, c.pack, c.unpack).Faithful();
  }
}
