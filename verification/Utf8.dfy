/** Node's UTF-8 encoder and decoder on UTF-16 code units. */
module Utf8 {
  import opened Wrappers
  import opened Json

  type Byte = b: int | 0 <= b < 256

  type Bytes = seq<Byte>

  /** No lone surrogates. */
  predicate WellFormed(t: Text) {
    t == [] ||
    (if StartsWithPair(t) then WellFormed(t[2..])
     else !IsHigh(t[0]) && !IsLow(t[0]) && WellFormed(t[1..]))
  }

  function EncodeOne(u: Unit): Bytes {
    if u < 0x80 then [u]
    else if u < 0x800 then [0xC0 + u / 64, 0x80 + u % 64]
    else if IsHigh(u) || IsLow(u) then [0xEF, 0xBF, 0xBD]
    else [0xE0 + u / 4096, 0x80 + u / 64 % 64, 0x80 + u % 64]
  }

  function PairCode(hi: Unit, lo: Unit): nat
    requires IsHigh(hi) && IsLow(lo)
  {
    0x10000 + (hi - 0xD800) * 1024 + (lo - 0xDC00)
  }

  function EncodePair(hi: Unit, lo: Unit): Bytes
    requires IsHigh(hi) && IsLow(lo)
  {
    var c := PairCode(hi, lo);
    [0xF0 + c / 262144, 0x80 + c / 4096 % 64, 0x80 + c / 64 % 64, 0x80 + c % 64]
  }

  /** Buffer.from(text, "utf-8"): a lone surrogate becomes U+FFFD. */
  function Encode(t: Text): Bytes {
    if t == [] then []
    else if StartsWithPair(t) then EncodePair(t[0], t[1]) + Encode(t[2..])
    else EncodeOne(t[0]) + Encode(t[1..])
  }

  predicate IsTail(b: Byte) { 0x80 <= b < 0xC0 }

  /** The bits of a code point, from the lead byte's payload and up to three continuation bytes. */
  function Bits(lead: int, a: int, b: int, c: int): int {
    lead * 262144 + (a - 0x80) * 4096 + (b - 0x80) * 64 + (c - 0x80)
  }

  /** Strict decoding; None where the bytes are not well-formed UTF-8. */
  function Decode(bs: Bytes): Option<Text> {
    if bs == [] then Some([])
    else if bs[0] < 0x80 then Prepend([bs[0]], Decode(bs[1..]))
    else if 0xC2 <= bs[0] < 0xE0 && |bs| >= 2 && IsTail(bs[1]) then
      Prepend([Bits(0, 0x80, bs[0] - 0xC0 + 0x80, bs[1])], Decode(bs[2..]))
    else if 0xE0 <= bs[0] < 0xF0 && |bs| >= 3 && IsTail(bs[1]) && IsTail(bs[2]) then
      var u: Unit := Bits(0, bs[0] - 0xE0 + 0x80, bs[1], bs[2]);
      if u < 0x800 || IsHigh(u) || IsLow(u) then None else Prepend([u], Decode(bs[3..]))
    else if 0xF0 <= bs[0] < 0xF5 && |bs| >= 4 && IsTail(bs[1]) && IsTail(bs[2]) && IsTail(bs[3]) then
      var c := Bits(bs[0] - 0xF0, bs[1], bs[2], bs[3]);
      if c < 0x10000 || c >= 0x110000 then None
      else Prepend([0xD800 + (c - 0x10000) / 1024, 0xDC00 + (c - 0x10000) % 1024], Decode(bs[4..]))
    else None
  }

  function Prepend(head: Text, tail: Option<Text>): Option<Text> {
    match tail
    case None => None
    case Some(t) => Some(head + t)
  }

  lemma SixBitGroups(c: nat)
    ensures c == Bits(c / 262144, 0x80 + c / 4096 % 64, 0x80 + c / 64 % 64, 0x80 + c % 64)
    ensures c < 0x110000 ==> c / 262144 <= 4
  {
    var a, b := c / 64, c / 4096;
    assert b == a / 64 && c / 262144 == b / 64;
    assert c == 64 * a + c % 64 && a == 64 * b + a % 64 && b == 64 * (c / 262144) + b % 64;
  }

  lemma SurrogateSplit(hi: Unit, lo: Unit)
    requires IsHigh(hi) && IsLow(lo)
    ensures 0x10000 <= PairCode(hi, lo) < 0x110000
    ensures 0xD800 + (PairCode(hi, lo) - 0x10000) / 1024 == hi && 0xDC00 + (PairCode(hi, lo) - 0x10000) % 1024 == lo
  {
  }

  lemma PairRoundTrip(hi: Unit, lo: Unit, rest: Bytes)
    requires IsHigh(hi) && IsLow(lo)
    ensures Decode(EncodePair(hi, lo) + rest) == Prepend([hi, lo], Decode(rest))
  {
    SurrogateSplit(hi, lo);
    SixBitGroups(PairCode(hi, lo));
    var bs := EncodePair(hi, lo) + rest;
    assert bs[4..] == rest;
  }

  lemma ShortRoundTrip(u: Unit, rest: Bytes)
    requires u < 0x800
    ensures Decode(EncodeOne(u) + rest) == Prepend([u], Decode(rest))
  {
    var bs := EncodeOne(u) + rest;
    assert bs[|EncodeOne(u)|..] == rest;
  }

  lemma ThreeRoundTrip(u: Unit, rest: Bytes)
    requires u >= 0x800 && !IsHigh(u) && !IsLow(u)
    ensures Decode(EncodeOne(u) + rest) == Prepend([u], Decode(rest))
  {
    SixBitGroups(u);
    var bs := EncodeOne(u) + rest;
    assert u / 262144 == 0 && u / 4096 % 64 == u / 4096 < 16;
    assert bs[0] == 0xE0 + u / 4096 && bs[1] == 0x80 + u / 64 % 64 && bs[2] == 0x80 + u % 64 && bs[3..] == rest;
    assert Bits(0, bs[0] - 0xE0 + 0x80, bs[1], bs[2]) == u;
  }

  lemma OneRoundTrip(u: Unit, rest: Bytes)
    requires !IsHigh(u) && !IsLow(u)
    ensures Decode(EncodeOne(u) + rest) == Prepend([u], Decode(rest))
  {
    if u < 0x800 { ShortRoundTrip(u, rest); } else { ThreeRoundTrip(u, rest); }
  }

  /** Encoding loses nothing exactly where there is no lone surrogate to lose. */
  lemma {:induction false} Utf8RoundTrip(t: Text)
    requires WellFormed(t)
    ensures Decode(Encode(t)) == Some(t)
  {
    if t != [] {
      if StartsWithPair(t) {
        Utf8RoundTrip(t[2..]);
        PairRoundTrip(t[0], t[1], Encode(t[2..]));
        assert t == [t[0], t[1]] + t[2..];
      } else {
        Utf8RoundTrip(t[1..]);
        OneRoundTrip(t[0], Encode(t[1..]));
        assert t == [t[0]] + t[1..];
      }
    }
  }

  lemma {:induction false} DecodedIsWellFormed(bs: Bytes)
    ensures Decode(bs).Some? ==> WellFormed(Decode(bs).value)
  {
    if Decode(bs).Some? && bs != [] {
      var n := if bs[0] < 0x80 then 1 else if bs[0] < 0xE0 then 2 else if bs[0] < 0xF0 then 3 else 4;
      var t, rest := Decode(bs).value, Decode(bs[n..]).value;
      DecodedIsWellFormed(bs[n..]);
      if n == 4 {
        assert t[2..] == rest;
      } else {
        assert t[1..] == rest;
        assert !IsHigh(t[0]) && !IsLow(t[0]);
      }
    }
  }

  /** Decoding undoes encoding if and only if the text has no lone surrogate. */
  lemma LosslessIffWellFormed(t: Text)
    ensures Decode(Encode(t)) == Some(t) <==> WellFormed(t)
  {
    if WellFormed(t) { Utf8RoundTrip(t); }
    DecodedIsWellFormed(Encode(t));
  }

  /** The text with U+FFFD in the place of every lone surrogate. */
  function Scrubbed(t: Text): Text {
    if t == [] then []
    else if StartsWithPair(t) then t[..2] + Scrubbed(t[2..])
    else [if IsHigh(t[0]) || IsLow(t[0]) then 0xFFFD else t[0]] + Scrubbed(t[1..])
  }

  /** Scrubbing keeps the bytes, and changes the text exactly when it has a lone surrogate. */
  lemma {:induction false} ScrubbedSameBytes(t: Text)
    ensures WellFormed(Scrubbed(t)) && Encode(Scrubbed(t)) == Encode(t)
    ensures Scrubbed(t) == t <==> WellFormed(t)
  {
    if t != [] {
      var n := if StartsWithPair(t) then 2 else 1;
      ScrubbedSameBytes(t[n..]);
      assert Scrubbed(t)[n..] == Scrubbed(t[n..]);
      assert t == t[..n] + t[n..];
    }
  }

  /** Two texts encode alike exactly when they differ in lone surrogates only. */
  lemma SameBytesIffSameScrubbed(s: Text, t: Text)
    ensures Encode(s) == Encode(t) <==> Scrubbed(s) == Scrubbed(t)
  {
    ScrubbedSameBytes(s);
    ScrubbedSameBytes(t);
    Utf8RoundTrip(Scrubbed(s));
    Utf8RoundTrip(Scrubbed(t));
  }

  lemma PairOfAppend(a: Text, b: Text)
    requires a != [] && (|a| == 1 ==> !IsHigh(a[0]))
    ensures StartsWithPair(a + b) <==> StartsWithPair(a)
    ensures (a + b)[1..] == a[1..] + b
    ensures |a| >= 2 ==> (a + b)[2..] == a[2..] + b
  {
    assert (a + b)[0] == a[0];
    if |a| >= 2 {
      assert (a + b)[1] == a[1];
      assert (a + b)[2..] == a[2..] + b;
    }
  }

  lemma {:induction false} WellFormedAppend(a: Text, b: Text)
    requires WellFormed(a) && WellFormed(b)
    ensures WellFormed(a + b) && Encode(a + b) == Encode(a) + Encode(b)
  {
    if a == [] {
      assert a + b == b && Encode(a) + Encode(b) == Encode(b);
    } else {
      PairOfAppend(a, b);
      var n := if StartsWithPair(a) then 2 else 1;
      var head := if StartsWithPair(a) then EncodePair(a[0], a[1]) else EncodeOne(a[0]);
      WellFormedAppend(a[n..], b);
      RegroupBytes(head, Encode(a[n..]), Encode(b));
    }
  }

  lemma RegroupBytes(a: Bytes, b: Bytes, c: Bytes)
    ensures a + (b + c) == (a + b) + c
  {
  }

  lemma {:induction false} AsciiWellFormed(t: Text)
    requires forall i :: 0 <= i < |t| ==> t[i] < 0x80
    ensures WellFormed(t) && Encode(t) == t
  {
    if t != [] { AsciiWellFormed(t[1..]); }
  }

  // ----- Printed JSON never contains a lone surrogate -----

  lemma Wrap(open: Unit, t: Text, close: Unit)
    requires open < 0x80 && close < 0x80 && WellFormed(t)
    ensures WellFormed([open] + t + [close]) && Encode([open] + t + [close]) == [open] + Encode(t) + [close]
  {
    AsciiWellFormed([open]);
    AsciiWellFormed([close]);
    WellFormedAppend([open], t);
    WellFormedAppend([open] + t, [close]);
  }

  lemma EscapeWellFormed(u: Unit)
    ensures WellFormed(Escape(u))
  {
    if |Escape(u)| > 1 {
      AsciiWellFormed(Escape(u));
    } else {
      assert Escape(u)[1..] == [];
    }
  }

  lemma {:induction false} BodyWellFormed(s: Text)
    ensures WellFormed(Body(s))
  {
    if s != [] {
      if StartsWithPair(s) {
        BodyWellFormed(s[2..]);
        assert s[..2][2..] == [];
        WellFormedAppend(s[..2], Body(s[2..]));
      } else {
        BodyWellFormed(s[1..]);
        EscapeWellFormed(s[0]);
        WellFormedAppend(Escape(s[0]), Body(s[1..]));
      }
    }
  }

  lemma {:induction false} DecIsAscii(n: nat)
    ensures forall i :: 0 <= i < |Dec(n)| ==> Dec(n)[i] < 0x80
  {
    if n >= 10 { DecIsAscii(n / 10); }
  }

  lemma {:induction false} StringifyWellFormed(v: Json)
    ensures WellFormed(Stringify(v))
    decreases v, 1
  {
    match v
    case Null => AsciiWellFormed(NULL);
    case Bool(b) => AsciiWellFormed(TRUE); AsciiWellFormed(FALSE);
    case Num(n) =>
      DecIsAscii(if n < 0 then -n else n);
      AsciiWellFormed(PrintInt(n));
    case Str(s) =>
      BodyWellFormed(s);
      Wrap(QUOTE, Body(s), QUOTE);
    case Arr(items) =>
      ItemsWellFormed(items);
      Wrap(LBRACKET, Join(PrintItems(items)), RBRACKET);
    case Obj(fields) =>
      FieldsWellFormed(fields);
      Wrap(LBRACE, Join(Vals(PrintFields(fields))), RBRACE);
    case Foreign =>
  }

  lemma JoinWellFormed(a: Text, rest: Text)
    requires WellFormed(a) && WellFormed(rest)
    ensures WellFormed(a + [COMMA] + rest)
  {
    AsciiWellFormed([COMMA]);
    WellFormedAppend(a, [COMMA]);
    WellFormedAppend(a + [COMMA], rest);
  }

  lemma {:induction false} ItemsWellFormed(items: seq<Json>)
    ensures WellFormed(Join(PrintItems(items)))
    decreases items, 0
  {
    if items != [] {
      StringifyWellFormed(items[0]);
      ItemsWellFormed(items[1..]);
      JoinWellFormed(Stringify(items[0]), Join(PrintItems(items[1..])));
      assert PrintItems(items)[1..] == PrintItems(items[1..]);
    }
  }

  lemma FieldWellFormed(key: Text, val: Text)
    requires WellFormed(val)
    ensures WellFormed(Quote(key) + [COLON] + val)
  {
    BodyWellFormed(key);
    Wrap(QUOTE, Body(key), QUOTE);
    AsciiWellFormed([COLON]);
    WellFormedAppend(Quote(key), [COLON]);
    WellFormedAppend(Quote(key) + [COLON], val);
  }

  lemma {:induction false} FieldsWellFormed(fields: seq<Keyed<Json>>)
    ensures WellFormed(Join(Vals(PrintFields(fields))))
    decreases fields, 0
  {
    if fields != [] {
      StringifyWellFormed(fields[0].val);
      FieldWellFormed(fields[0].key, Stringify(fields[0].val));
      FieldsWellFormed(fields[1..]);
      JoinWellFormed(Quote(fields[0].key) + [COLON] + Stringify(fields[0].val), Join(Vals(PrintFields(fields[1..]))));
      assert Vals(PrintFields(fields))[1..] == Vals(PrintFields(fields[1..]));
    }
  }
}
