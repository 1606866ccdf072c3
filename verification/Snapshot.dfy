/**
 Encrypted snapshots: canonical text, cipher, base64 (RFC 4648 section 4), a JSON
 envelope, hex (RFC 4648 section 8), and back.  The cipher is any invertible one
 and the hash any function; only the decoders' behaviour on well-formed input is
 modelled.
 */
module Snapshot {
  import opened Wrappers
  import opened Json
  import opened JsonProofs
  import opened JsonCanonical
  import opened Utf8
  import opened Canonicalize

  // ----- Base64 -----

  const PAD: Unit := 61

  function Symbol(v: nat): Unit
    requires v < 64
  {
    if v < 26 then 65 + v else if v < 52 then 71 + v else if v < 62 then v - 4 else if v == 62 then 43 else 47
  }

  function SymbolValue(c: Unit): Option<nat> {
    if 65 <= c <= 90 then Some(c - 65)
    else if 97 <= c <= 122 then Some(c - 71)
    else if 48 <= c <= 57 then Some(c + 4)
    else if c == 43 then Some(62)
    else if c == 47 then Some(63)
    else None
  }

  /** Three bytes as four symbols. */
  function Group(a: Byte, b: Byte, c: Byte): Text {
    [Symbol(a / 4), Symbol(a % 4 * 16 + b / 16), Symbol(b % 16 * 4 + c / 64), Symbol(c % 64)]
  }

  function ToBase64(bs: Bytes): Text {
    if bs == [] then []
    else if |bs| == 1 then Group(bs[0], 0, 0)[..2] + [PAD, PAD]
    else if |bs| == 2 then Group(bs[0], bs[1], 0)[..3] + [PAD]
    else Group(bs[0], bs[1], bs[2]) + ToBase64(bs[3..])
  }

  function Ungroup(w: nat, x: nat, y: nat, z: nat): Bytes
    requires w < 64 && x < 64 && y < 64 && z < 64
  {
    [w * 4 + x / 16, x % 16 * 16 + y / 4, y % 4 * 64 + z]
  }

  function ValueOr(c: Unit): (r: Option<nat>)
    ensures r.Some? ==> r.value < 64
  {
    if c == PAD then Some(0) else SymbolValue(c)
  }

  function FromBase64(t: Text): Option<Bytes> {
    if t == [] then Some([])
    else if |t| < 4 || t[0] == PAD || t[1] == PAD || (t[2] == PAD && t[3] != PAD) || (t[3] == PAD && |t| != 4) then None
    else
      var w, x, y, z := ValueOr(t[0]), ValueOr(t[1]), ValueOr(t[2]), ValueOr(t[3]);
      if w.None? || x.None? || y.None? || z.None? then None
      else
        var bytes := Ungroup(w.value, x.value, y.value, z.value);
        match FromBase64(t[4..])
        case None => None
        case Some(rest) =>
          Some((if t[2] == PAD then bytes[..1] else if t[3] == PAD then bytes[..2] else bytes) + rest)
  }

  lemma SymbolRoundTrip(v: nat)
    requires v < 64
    ensures SymbolValue(Symbol(v)) == Some(v) && Symbol(v) != PAD
  {
  }

  lemma GroupRoundTrip(a: Byte, b: Byte, c: Byte)
    ensures Ungroup(a / 4, a % 4 * 16 + b / 16, b % 16 * 4 + c / 64, c % 64) == [a, b, c]
  {
  }

  lemma GroupSymbols(a: Byte, b: Byte, c: Byte)
    ensures var g := Group(a, b, c);
            && ValueOr(g[0]) == Some(a / 4) && ValueOr(g[1]) == Some(a % 4 * 16 + b / 16)
            && ValueOr(g[2]) == Some(b % 16 * 4 + c / 64) && ValueOr(g[3]) == Some(c % 64)
            && g[0] != PAD && g[1] != PAD && g[2] != PAD && g[3] != PAD
  {
    SymbolRoundTrip(a / 4);
    SymbolRoundTrip(a % 4 * 16 + b / 16);
    SymbolRoundTrip(b % 16 * 4 + c / 64);
    SymbolRoundTrip(c % 64);
  }

  lemma GroupDecodes(a: Byte, b: Byte, c: Byte, rest: Text, bytes: Bytes)
    requires FromBase64(rest) == Some(bytes)
    ensures FromBase64(Group(a, b, c) + rest) == Some([a, b, c] + bytes)
  {
    GroupSymbols(a, b, c);
    GroupRoundTrip(a, b, c);
    var t := Group(a, b, c) + rest;
    assert t[4..] == rest;
  }

  /** The last one or two bytes, padded. */
  lemma TailDecodes(a: Byte, b: Byte)
    ensures FromBase64(Group(a, 0, 0)[..2] + [PAD, PAD]) == Some([a])
    ensures FromBase64(Group(a, b, 0)[..3] + [PAD]) == Some([a, b])
  {
    GroupSymbols(a, 0, 0);
    GroupRoundTrip(a, 0, 0);
    GroupSymbols(a, b, 0);
    GroupRoundTrip(a, b, 0);
    var t, u := Group(a, 0, 0)[..2] + [PAD, PAD], Group(a, b, 0)[..3] + [PAD];
    var none: Bytes := [];
    assert t[4..] == [] && u[4..] == [] && FromBase64([]) == Some(none);
    assert Ungroup(a / 4, a % 4 * 16, 0, 0) == [a, 0, 0]
      && Ungroup(a / 4, a % 4 * 16 + b / 16, b % 16 * 4, 0) == [a, b, 0];
    assert [a, 0, 0][..1] + none == [a] && [a, b, 0][..2] + none == [a, b];
  }

  lemma {:induction false} Base64RoundTrip(bs: Bytes)
    ensures FromBase64(ToBase64(bs)) == Some(bs)
  {
    if |bs| >= 3 {
      Base64RoundTrip(bs[3..]);
      GroupDecodes(bs[0], bs[1], bs[2], ToBase64(bs[3..]), bs[3..]);
      assert bs == [bs[0], bs[1], bs[2]] + bs[3..];
    } else if bs != [] {
      TailDecodes(bs[0], bs[|bs| - 1]);
      assert bs == if |bs| == 1 then [bs[0]] else [bs[0], bs[1]];
    }
  }

  // ----- Hex -----

  function ToHex(bs: Bytes): Text {
    if bs == [] then [] else [HexDigit(bs[0] / 16), HexDigit(bs[0] % 16)] + ToHex(bs[1..])
  }

  function FromHex(t: Text): Option<Bytes> {
    if t == [] then Some([])
    else if |t| < 2 then None
    else
      var a, b := HexValue(t[0]), HexValue(t[1]);
      if a.None? || b.None? || a.value >= 16 || b.value >= 16 then None
      else
        match FromHex(t[2..])
        case None => None
        case Some(rest) => Some([a.value * 16 + b.value] + rest)
  }

  lemma HexByte(b: Byte, rest: Text, bytes: Bytes)
    requires FromHex(rest) == Some(bytes)
    ensures FromHex([HexDigit(b / 16), HexDigit(b % 16)] + rest) == Some([b] + bytes)
  {
    HexDigitRoundTrip(b / 16);
    HexDigitRoundTrip(b % 16);
    assert ([HexDigit(b / 16), HexDigit(b % 16)] + rest)[2..] == rest;
  }

  lemma {:induction false} HexRoundTrip(bs: Bytes)
    ensures FromHex(ToHex(bs)) == Some(bs)
  {
    if bs != [] {
      HexRoundTrip(bs[1..]);
      HexByte(bs[0], ToHex(bs[1..]), bs[1..]);
      assert bs == [bs[0]] + bs[1..];
    }
  }

  // ----- The envelope -----

  /** An authenticated cipher under one key: (iv, text) to (data, tag), and back. */
  datatype Cipher = Cipher(seal: (Bytes, Bytes) -> (Bytes, Bytes), open: (Bytes, Bytes, Bytes) -> Option<Bytes>)

  ghost predicate Invertible(c: Cipher) {
    forall iv, x :: c.open(iv, c.seal(iv, x).1, c.seal(iv, x).0) == Some(x)
  }

  const ZERO_X: Text := [48, 120]
  const KEY_V: Text := [118]
  const KEY_IV: Text := [105, 118]
  const KEY_TAG: Text := [116, 97, 103]
  const KEY_DATA: Text := DATA

  function SealedEnvelope(iv: Bytes, sealed: (Bytes, Bytes)): Json {
    Obj([Keyed(KEY_V, Num(1)), Keyed(KEY_IV, Str(ToBase64(iv))),
         Keyed(KEY_TAG, Str(ToBase64(sealed.1))), Keyed(KEY_DATA, Str(ToBase64(sealed.0)))])
  }

  function EncryptSnapshot(c: Cipher, iv: Bytes, payload: Json): Text {
    var sealed := c.seal(iv, Encode(StableStringify(payload)));
    ZERO_X + ToHex(Encode(Stringify(SealedEnvelope(iv, sealed))))
  }

  /** The value of the last entry with this key, as JSON.parse keeps it. */
  function Lookup(fields: seq<Keyed<Json>>, key: Text): Option<Json> {
    if fields == [] then None
    else if fields[|fields| - 1].key == key then Some(fields[|fields| - 1].val)
    else Lookup(fields[..|fields| - 1], key)
  }

  /** A base64 field of the envelope. */
  function BytesField(envelope: Json, key: Text): Option<Bytes> {
    if !envelope.Obj? then None
    else
      match Lookup(envelope.fields, key)
      case Some(Str(s)) => FromBase64(s)
      case _ => None
  }

  function ParseUtf8(bs: Bytes): Option<Json> {
    match Decode(bs)
    case None => None
    case Some(t) => Parse(t)
  }

  function OpenEnvelope(c: Cipher, envelope: Json): Option<Json> {
    var iv, tag, data := BytesField(envelope, KEY_IV), BytesField(envelope, KEY_TAG), BytesField(envelope, KEY_DATA);
    if iv.None? || tag.None? || data.None? then None
    else
      match c.open(iv.value, tag.value, data.value)
      case None => None
      case Some(text) => ParseUtf8(text)
  }

  function DecryptSnapshot(c: Cipher, ciphertext: Text): Option<Json> {
    var hex := if ZERO_X <= ciphertext then ciphertext[2..] else ciphertext;
    match FromHex(hex)
    case None => None
    case Some(bs) =>
      match ParseUtf8(bs)
      case None => None
      case Some(envelope) => OpenEnvelope(c, envelope)
  }

  function HashSnapshot<D>(hash: Bytes -> D, payload: Json): D { hash(Encode(StableStringify(payload))) }

  lemma EnvelopeFields(iv: Bytes, sealed: (Bytes, Bytes))
    ensures var e := SealedEnvelope(iv, sealed);
            && BytesField(e, KEY_IV) == Some(iv)
            && BytesField(e, KEY_TAG) == Some(sealed.1)
            && BytesField(e, KEY_DATA) == Some(sealed.0)
  {
    Base64RoundTrip(iv);
    Base64RoundTrip(sealed.0);
    Base64RoundTrip(sealed.1);
    var f := SealedEnvelope(iv, sealed).fields;
    assert f[..3] == [f[0], f[1], f[2]] && f[..3][..2] == [f[0], f[1]];
    assert KEY_IV[0] != KEY_TAG[0] && KEY_TAG[0] != KEY_DATA[0] && KEY_IV[0] != KEY_DATA[0];
    assert Lookup(f, KEY_DATA) == Some(f[3].val);
    assert Lookup(f, KEY_TAG) == Lookup(f[..3], KEY_TAG) == Some(f[2].val);
    assert Lookup(f, KEY_IV) == Lookup(f[..3], KEY_IV) == Lookup(f[..3][..2], KEY_IV) == Some(f[1].val);
  }

  /** A JSON text survives encoding as UTF-8. */
  lemma TextSurvives(v: Json)
    requires Plain(v)
    ensures ParseUtf8(Encode(Stringify(v))) == Some(v)
  {
    StringifyWellFormed(v);
    Utf8RoundTrip(Stringify(v));
    ParseStringify(v);
  }

  /** Unwrapping an encrypted snapshot gives back the sealed envelope. */
  lemma EnvelopeSurvives(c: Cipher, iv: Bytes, payload: Json)
    ensures DecryptSnapshot(c, EncryptSnapshot(c, iv, payload)) ==
            OpenEnvelope(c, SealedEnvelope(iv, c.seal(iv, Encode(StableStringify(payload)))))
  {
    var envelope := SealedEnvelope(iv, c.seal(iv, Encode(StableStringify(payload))));
    TextSurvives(envelope);
    HexRoundTrip(Encode(Stringify(envelope)));
    assert EncryptSnapshot(c, iv, payload)[2..] == ToHex(Encode(Stringify(envelope)));
  }

  /** Decrypting what was encrypted returns the payload, up to key order, and it re-hashes to the original hash. */
  lemma DecryptEncrypt<D>(c: Cipher, iv: Bytes, payload: Json, hash: Bytes -> D)
    requires Invertible(c) && Plain(payload) && Proper(payload)
    ensures var back := DecryptSnapshot(c, EncryptSnapshot(c, iv, payload));
            && back.Some?
            && Same(back.value, payload)
            && HashSnapshot(hash, back.value) == HashSnapshot(hash, payload)
  {
    var text := StableStringify(payload);
    EnvelopeSurvives(c, iv, payload);
    EnvelopeFields(iv, c.seal(iv, Encode(text)));
    StableIsCanonical(payload);
    StringifyWellFormed(Canon(payload));
    Utf8RoundTrip(text);
    ParseStableIsSame(payload);
  }

  /** The integrity check accepts a decrypted payload exactly when it is the one that was hashed, up to key order. */
  lemma HashCheckAcceptsOnlyTheOriginal<D(!new)>(hash: Bytes -> D, original: Json, decrypted: Json)
    requires CollisionFree(hash)
    requires Plain(original) && Proper(original) && Plain(decrypted) && Proper(decrypted)
    ensures HashSnapshot(hash, decrypted) == HashSnapshot(hash, original) <==> Same(decrypted, original)
  {
    StableEqualIffSame(decrypted, original);
    StableIsCanonical(decrypted);
    StableIsCanonical(original);
    StringifyWellFormed(Canon(decrypted));
    StringifyWellFormed(Canon(original));
    Utf8RoundTrip(StableStringify(decrypted));
    Utf8RoundTrip(StableStringify(original));
  }
}
