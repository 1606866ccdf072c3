/**
 What the round trips leave open: which of the possible encodings is the one in use. Escapes are those of
 JSON.stringify, the rest are the examples of RFC 4648 section 10 and of RFC 3629 section 7 and like them. */
module Vectors {
  import opened Json
  import opened Utf8
  import opened Snapshot

  predicate IsLowerHex(u: Unit) { 48 <= u <= 57 || 97 <= u <= 102 }

  function LowerHexValue(u: Unit): int
    requires IsLowerHex(u)
  {
    if u <= 57 then u - 48 else u - 87
  }

  lemma Hex4IsLowerHex(u: Unit)
    ensures forall k | 0 <= k < 4 :: IsLowerHex(Hex4(u)[k])
    ensures 4096 * LowerHexValue(Hex4(u)[0]) + 256 * LowerHexValue(Hex4(u)[1]) + 16 * LowerHexValue(Hex4(u)[2])
            + LowerHexValue(Hex4(u)[3]) == u
  {
    var a, b := u / 256, u / 16;
    assert b / 16 == a && a / 16 == u / 4096;
    assert u == 16 * b + u % 16 && b == 16 * a + b % 16 && a == 16 * (u / 4096) + a % 16;
  }

  predicate ShortEscaped(u: Unit) { u == 34 || u == 92 || 8 <= u <= 10 || u == 12 || u == 13 }

  /** Seven units have a short escape, the other controls and lone surrogates are written as four lower-case hex digits,
   and everything else stands for itself. */
  lemma EscapesOfStringify(u: Unit)
    ensures Escape(34) == [92, 34] && Escape(92) == [92, 92]
    ensures Escape(8) == [92, 98] && Escape(9) == [92, 116] && Escape(10) == [92, 110]
    ensures Escape(12) == [92, 102] && Escape(13) == [92, 114]
    ensures |Escape(u)| == 2 <==> ShortEscaped(u)
    ensures |Escape(u)| == 6 <==> (u < 32 && !ShortEscaped(u)) || 0xD800 <= u < 0xE000
    ensures |Escape(u)| == 6 ==>
      var h := Escape(u)[2..];
      && Escape(u)[..2] == [92, 117] && (forall k | 0 <= k < 4 :: IsLowerHex(h[k]))
      && 4096 * LowerHexValue(h[0]) + 256 * LowerHexValue(h[1]) + 16 * LowerHexValue(h[2]) + LowerHexValue(h[3]) == u
    ensures !ShortEscaped(u) && 32 <= u && !(0xD800 <= u < 0xE000) ==> Escape(u) == [u]
  {
    Hex4IsLowerHex(u);
    if |Escape(u)| == 6 { assert Escape(u) == [92, 117] + Hex4(u) && Escape(u)[2..] == Hex4(u); }
  }

  /** Both printers write no whitespace, and only the canonical one reorders keys: this is how
   an object of any value and a null is written, and an array of any two values. */
  lemma PrintedForms(v: Json, w: Json)
    ensures var o := Obj([Keyed([98], v), Keyed([97], Null)]);
      && Stringify(o) == [123, 34, 98, 34, 58] + Stringify(v) + [44, 34, 97, 34, 58, 110, 117, 108, 108, 125]
      && StableStringify(o) ==
         [123, 34, 97, 34, 58, 110, 117, 108, 108, 44, 34, 98, 34, 58] + StableStringify(v) + [125]
    ensures Stringify(Arr([v, w])) == [91] + Stringify(v) + [44] + Stringify(w) + [93]
    ensures StableStringify(Arr([v, w])) == [91] + StableStringify(v) + [44] + StableStringify(w) + [93]
    ensures PrintInt(-10) == [45, 49, 48] && Stringify(Bool(true)) == [116, 114, 117, 101]
    ensures Stringify(Arr([])) == [91, 93] && Stringify(Obj([])) == [123, 125]
  {
    assert Dec(1) == [49] && Dec(10) == [49, 48];
    PrintedArray(v, w);
    PrintedObject(v);
    StableObject(v);
  }

  lemma JoinTwo(a: Text, b: Text)
    ensures Join([a, b]) == a + [44] + b
  {
    assert [a, b][1..] == [b];
  }

  lemma OneItem(v: Json)
    ensures PrintItems([v]) == [Stringify(v)] && StableItems([v]) == [StableStringify(v)]
  {
    assert [v][1..] == [];
    assert PrintItems([]) == [] && StableItems([]) == [];
  }

  lemma TwoItems(v: Json, w: Json)
    ensures PrintItems([v, w]) == [Stringify(v), Stringify(w)]
    ensures StableItems([v, w]) == [StableStringify(v), StableStringify(w)]
  {
    assert [v, w][1..] == [w];
    OneItem(w);
  }

  lemma PrintedArray(v: Json, w: Json)
    ensures Stringify(Arr([v, w])) == [91] + Stringify(v) + [44] + Stringify(w) + [93]
    ensures StableStringify(Arr([v, w])) == [91] + StableStringify(v) + [44] + StableStringify(w) + [93]
  {
    TwoItems(v, w);
    JoinTwo(Stringify(v), Stringify(w));
    JoinTwo(StableStringify(v), StableStringify(w));
  }

  function Printed(u: Unit, text: Text): Keyed<Text> { Keyed([u], [34, u, 34, 58] + text) }

  lemma OneField(u: Unit, v: Json)
    requires 97 <= u <= 98
    ensures PrintFields([Keyed([u], v)]) == [Printed(u, Stringify(v))]
    ensures StableFields([Keyed([u], v)]) == [Printed(u, StableStringify(v))]
  {
    Quoted(u);
    assert [Keyed([u], v)][1..] == [];
    var none: seq<Keyed<Json>> := [];
    assert PrintFields(none) == [] && StableFields(none) == [];
  }

  lemma TwoFields(v: Json, w: Json)
    ensures PrintFields([Keyed([98], v), Keyed([97], w)]) == [Printed(98, Stringify(v)), Printed(97, Stringify(w))]
    ensures StableFields([Keyed([98], v), Keyed([97], w)])
            == [Printed(98, StableStringify(v)), Printed(97, StableStringify(w))]
  {
    assert [Keyed([98], v), Keyed([97], w)][1..] == [Keyed([97], w)];
    Quoted(98);
    OneField(97, w);
  }

  lemma ValsOfTwo(a: Keyed<Text>, b: Keyed<Text>)
    ensures Vals([a, b]) == [a.val, b.val]
  {
  }

  lemma PrintedObject(v: Json)
    ensures Stringify(Obj([Keyed([98], v), Keyed([97], Null)])) ==
            [123, 34, 98, 34, 58] + Stringify(v) + [44, 34, 97, 34, 58, 110, 117, 108, 108, 125]
  {
    TwoFields(v, Null);
    var b, a := Printed(98, Stringify(v)), Printed(97, NULL);
    ValsOfTwo(b, a);
    JoinTwo(b.val, a.val);
  }

  lemma SortedFields(v: Json)
    ensures Vals(Sort(StableFields([Keyed([98], v), Keyed([97], Null)]))) ==
            [Printed(97, NULL).val, Printed(98, StableStringify(v)).val]
  {
    TwoFields(v, Null);
    var b, a := Printed(98, StableStringify(v)), Printed(97, NULL);
    SortedPair(a.val, b.val);
    ValsOfTwo(a, b);
  }

  lemma TwoEntries(text: Text)
    ensures [123] + Join([Printed(97, NULL).val, Printed(98, text).val]) + [125] ==
            [123, 34, 97, 34, 58, 110, 117, 108, 108, 44, 34, 98, 34, 58] + text + [125]
  {
    JoinTwo(Printed(97, NULL).val, Printed(98, text).val);
  }

  lemma StableObject(v: Json)
    ensures StableStringify(Obj([Keyed([98], v), Keyed([97], Null)])) ==
            [123, 34, 97, 34, 58, 110, 117, 108, 108, 44, 34, 98, 34, 58] + StableStringify(v) + [125]
  {
    SortedFields(v);
    TwoEntries(StableStringify(v));
  }

  lemma Quoted(u: Unit)
    requires 97 <= u <= 98
    ensures Quote([u]) + [COLON] == [34, u, 34, 58]
  {
    assert [u][1..] == [] && Body([u]) == [u];
  }

  lemma SortedPair(a: Text, b: Text)
    ensures Sort([Keyed([98], b), Keyed([97], a)]) == [Keyed([97], a), Keyed([98], b)]
  {
    var one := [Keyed([97], a)];
    assert [Keyed([98], b), Keyed([97], a)][1..] == one && one[1..] == [];
    assert Less([97], [98]);
    assert Sort(one) == one;
    assert Insert(Keyed([98], b), []) == [Keyed([98], b)];
  }

  /** One, two and three bytes with their padding, and the two symbols beyond letters and digits. */
  lemma Base64Vectors()
    ensures ToBase64([]) == []
    ensures ToBase64([102]) == [90, 103, 61, 61]
    ensures ToBase64([102, 111]) == [90, 109, 56, 61]
    ensures ToBase64([102, 111, 111]) == [90, 109, 57, 118]
    ensures ToBase64([102, 111, 111, 98, 97, 114]) == [90, 109, 57, 118, 89, 109, 70, 121]
    ensures ToBase64([251, 239, 190]) == [43, 43, 43, 43] && ToBase64([255, 255, 255]) == [47, 47, 47, 47]
  {
    var foobar := [102, 111, 111, 98, 97, 114];
    assert foobar[3..] == [98, 97, 114] && [98, 97, 114][3..] == [];
    assert ToBase64([98, 97, 114]) == [89, 109, 70, 121];
    assert [102, 111, 111][3..] == [] && [251, 239, 190][3..] == [] && [255, 255, 255][3..] == [];
  }

  lemma HexVectors()
    ensures ToHex([0x01, 0xAB, 0xFF]) == [48, 49, 97, 98, 102, 102]
  {
    assert [0x01, 0xAB, 0xFF][1..] == [0xAB, 0xFF] && [0xAB, 0xFF][1..] == [0xFF] && [0xFF][1..] == [];
    assert ToHex([0xFF]) == [102, 102];
    assert ToHex([0xAB, 0xFF]) == [97, 98, 102, 102];
  }

  /** One, two, three and four bytes, and the replacement of a lone surrogate. */
  lemma Utf8Vectors()
    ensures Encode([0x41]) == [0x41] && Encode([0x391]) == [0xCE, 0x91] && Encode([0x2262]) == [0xE2, 0x89, 0xA2]
    ensures Encode([0xD84C, 0xDFB4]) == [0xF0, 0xA3, 0x8E, 0xB4]
    ensures Encode([0xDFB4]) == [0xEF, 0xBF, 0xBD]
  {
    assert Encode([]) == [];
    assert [0x41][1..] == [] && [0x391][1..] == [] && [0x2262][1..] == [] && [0xDFB4][1..] == [];
    assert PairCode(0xD84C, 0xDFB4) == 0x233B4;
    assert [0xD84C, 0xDFB4][2..] == [];
  }
}
