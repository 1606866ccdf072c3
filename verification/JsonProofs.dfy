/** Printing is invertible, and canonical printing identifies exactly the values that agree up to key order. */
module JsonProofs {
  import opened Wrappers
  import opened Json

  // ----- Strings and numbers -----

  lemma HexDigitRoundTrip(d: nat)
    requires d < 16
    ensures HexValue(HexDigit(d)) == Some(d)
  {
  }

  lemma Nibbles(u: Unit)
    ensures u / 4096 < 16
    ensures (u / 4096) * 4096 + (u / 256 % 16) * 256 + (u / 16 % 16) * 16 + u % 16 == u
  {
    var a, b := u / 16, u / 256;
    assert b == a / 16 && u / 4096 == b / 16;
    assert u == 16 * a + u % 16 && a == 16 * b + a % 16 && b == 16 * (u / 4096) + b % 16;
  }

  lemma Hex4RoundTrip(u: Unit)
    ensures Hex4Value(Hex4(u)) == Some(u)
  {
    Nibbles(u);
    HexDigitRoundTrip(u / 4096);
    HexDigitRoundTrip(u / 256 % 16);
    HexDigitRoundTrip(u / 16 % 16);
    HexDigitRoundTrip(u % 16);
  }

  lemma RawUnit(u: Unit, r: Text)
    requires u >= 32 && u != QUOTE && u != BACKSLASH
    ensures ParseBody([u] + r) == Cons(u, ParseBody(r))
  {
    assert ([u] + r)[1..] == r;
  }

  lemma EscapeRoundTrip(u: Unit, r: Text)
    ensures ParseBody(Escape(u) + r) == Cons(u, ParseBody(r))
  {
    var t := Escape(u) + r;
    if |Escape(u)| == 6 {
      Hex4RoundTrip(u);
      assert t[2..6] == Hex4(u) && t[6..] == r;
    } else {
      assert t[|Escape(u)|..] == r;
    }
  }

  lemma RawPair(a: Unit, b: Unit, rest: Text, s: Text, r: Text)
    requires a >= 128 && b >= 128 && ParseBody(rest) == Some((s, r))
    ensures ParseBody([a, b] + rest) == Some(([a, b] + s, r))
  {
    RawUnit(b, rest);
    RawUnit(a, [b] + rest);
    assert [a, b] + rest == [a] + ([b] + rest);
    assert [a, b] + s == [a] + ([b] + s);
  }

  lemma EscapedUnit(u: Unit, rest: Text, s: Text, r: Text)
    requires ParseBody(rest) == Some((s, r))
    ensures ParseBody(Escape(u) + rest) == Some(([u] + s, r))
  {
    EscapeRoundTrip(u, rest);
  }

  lemma BodyEnds(r: Text)
    ensures ParseBody([QUOTE] + r) == Some(([], r))
  {
    assert ([QUOTE] + r)[1..] == r;
  }

  lemma Assoc(a: Text, b: Text, c: Text)
    ensures (a + b) + c == a + (b + c)
  {
  }

  lemma BodyUnfold(s: Text, tail: Text)
    requires s != []
    ensures if StartsWithPair(s) then Body(s) + tail == [s[0], s[1]] + (Body(s[2..]) + tail)
            else Body(s) + tail == Escape(s[0]) + (Body(s[1..]) + tail)
  {
    if StartsWithPair(s) {
      assert s[..2] == [s[0], s[1]];
      Assoc([s[0], s[1]], Body(s[2..]), tail);
    } else {
      Assoc(Escape(s[0]), Body(s[1..]), tail);
    }
  }

  lemma {:induction false} BodyRoundTrip(s: Text, r: Text)
    ensures ParseBody(Body(s) + ([QUOTE] + r)) == Some((s, r))
  {
    var tail := [QUOTE] + r;
    if s == [] {
      assert Body(s) + tail == tail;
      BodyEnds(r);
    } else if StartsWithPair(s) {
      BodyUnfold(s, tail);
      BodyRoundTrip(s[2..], r);
      assert s == [s[0], s[1]] + s[2..];
      RawPair(s[0], s[1], Body(s[2..]) + tail, s[2..], r);
    } else {
      BodyUnfold(s, tail);
      BodyRoundTrip(s[1..], r);
      assert s == [s[0]] + s[1..];
      EscapedUnit(s[0], Body(s[1..]) + tail, s[1..], r);
    }
  }

  predicate NumberEnds(r: Text) { r == [] || (!IsDigit(r[0]) && r[0] !in {46, 69, 101}) }

  lemma {:induction false} DigitsAppend(d: Text, r: Text)
    requires forall i :: 0 <= i < |d| ==> IsDigit(d[i])
    requires r == [] || !IsDigit(r[0])
    ensures Digits(d + r) == d
  {
    if d == [] {
      assert d + r == r;
    } else {
      assert (d + r)[1..] == d[1..] + r;
      DigitsAppend(d[1..], r);
    }
  }

  lemma {:induction false} DecIsDigits(n: nat)
    ensures Dec(n) != [] && forall i :: 0 <= i < |Dec(n)| ==> IsDigit(Dec(n)[i])
    ensures Dec(n)[0] == 48 <==> n == 0
    ensures Value(Dec(n)) == n
  {
    if n >= 10 {
      DecIsDigits(n / 10);
      assert Dec(n)[..|Dec(n)| - 1] == Dec(n / 10);
    } else {
      assert Dec(n)[..0] == [];
    }
  }

  lemma NatRoundTrip(n: nat, r: Text)
    requires NumberEnds(r)
    ensures ParseNat(Dec(n) + r) == Some((n, r))
  {
    DecIsDigits(n);
    DigitsAppend(Dec(n), r);
    if n == 0 { assert Dec(0)[..1] == Dec(0); }
    assert (Dec(n) + r)[|Dec(n)|..] == r;
  }

  lemma NumberRoundTrip(n: int, r: Text)
    requires NumberEnds(r)
    ensures ParseNumber(PrintInt(n) + r) == Some((Num(n), r))
  {
    if n < 0 {
      NegativeRoundTrip(-n, r);
    } else {
      NatRoundTrip(n, r);
      DecIsDigits(n);
    }
  }

  lemma NegativeRoundTrip(n: int, r: Text)
    requires NumberEnds(r) && n > 0
    ensures ParseNumber(PrintInt(-n) + r) == Some((Num(-n), r))
  {
    NatRoundTrip(n, r);
    assert PrintInt(-n) == [MINUS] + Dec(n);
    assert (PrintInt(-n) + r)[1..] == Dec(n) + r;
  }

  // ----- Values -----

  predicate StartsLikeValue(t: Text) {
    t != [] && !IsWs(t[0]) && t[0] !in {RBRACKET, RBRACE, COMMA, COLON}
  }

  lemma FirstUnit(v: Json)
    requires Plain(v)
    ensures StartsLikeValue(Stringify(v))
    ensures v.Num? <==> (Stringify(v)[0] == MINUS || IsDigit(Stringify(v)[0]))
  {
    if v.Num? { DecIsDigits(if v.n < 0 then -v.n else v.n); }
  }

  lemma SkipNothing(t: Text)
    requires t == [] || !IsWs(t[0])
    ensures SkipWs(t) == t
  {
  }

  lemma ParseArray(inner: Text, items: seq<Json>, r: Text)
    requires StartsLikeValue(inner) && ParseItems(inner) == Some((items, r))
    ensures ParseValue([LBRACKET] + inner) == Some((Arr(items), r))
  {
    assert ([LBRACKET] + inner)[1..] == inner;
    SkipNothing(inner);
  }

  lemma ParseObject(inner: Text, fields: seq<Keyed<Json>>, r: Text)
    requires StartsLikeValue(inner) && ParseFields(inner) == Some((fields, r))
    ensures ParseValue([LBRACE] + inner) == Some((Obj(fields), r))
  {
    assert ([LBRACE] + inner)[1..] == inner;
    SkipNothing(inner);
  }

  lemma ParseEmpty(r: Text)
    ensures ParseValue([LBRACKET, RBRACKET] + r) == Some((Arr([]), r))
    ensures ParseValue([LBRACE, RBRACE] + r) == Some((Obj([]), r))
  {
    var a, o := [LBRACKET, RBRACKET] + r, [LBRACE, RBRACE] + r;
    assert a[1..][1..] == r && o[1..][1..] == r;
    SkipNothing(a[1..]);
    SkipNothing(o[1..]);
  }

  lemma ScalarRoundTrip(v: Json, r: Text)
    requires Plain(v) && NumberEnds(r) && !v.Arr? && !v.Obj?
    ensures ParseValue(Stringify(v) + r) == Some((v, r))
  {
    var t := Stringify(v) + r;
    FirstUnit(v);
    match v
    case Null => assert t[|NULL|..] == r;
    case Bool(b) => assert t[|if b then TRUE else FALSE|..] == r;
    case Num(n) => NumberRoundTrip(n, r);
    case Str(s) =>
      assert t[1..] == Body(s) + ([QUOTE] + r);
      BodyRoundTrip(s, r);
  }

  /** Reading back what was printed gives the value and leaves exactly what followed. */
  lemma {:induction false} ValueRoundTrip(v: Json, r: Text)
    requires Plain(v) && NumberEnds(r)
    ensures ParseValue(Stringify(v) + r) == Some((v, r))
    decreases v, 2
  {
    if v.Arr? {
      ArrayRoundTrip(v.items, r);
      assert v == Arr(v.items);
    } else if v.Obj? {
      ObjectRoundTrip(v.fields, r);
      assert v == Obj(v.fields);
    } else {
      ScalarRoundTrip(v, r);
    }
  }

  lemma {:induction false} ArrayRoundTrip(items: seq<Json>, r: Text)
    requires forall i :: 0 <= i < |items| ==> Plain(items[i])
    ensures ParseValue(Stringify(Arr(items)) + r) == Some((Arr(items), r))
    decreases items, 2
  {
    if items == [] {
      assert Stringify(Arr(items)) + r == [LBRACKET, RBRACKET] + r;
      ParseEmpty(r);
    } else {
      var inner := Join(PrintItems(items)) + ([RBRACKET] + r);
      assert Stringify(Arr(items)) + r == [LBRACKET] + inner;
      ItemsRoundTrip(items, r);
      ItemsStart(items);
      ParseArray(inner, items, r);
    }
  }

  lemma {:induction false} ObjectRoundTrip(fields: seq<Keyed<Json>>, r: Text)
    requires forall i :: 0 <= i < |fields| ==> Plain(fields[i].val)
    ensures ParseValue(Stringify(Obj(fields)) + r) == Some((Obj(fields), r))
    decreases fields, 2
  {
    if fields == [] {
      assert Stringify(Obj(fields)) + r == [LBRACE, RBRACE] + r;
      ParseEmpty(r);
    } else {
      var inner := Join(Vals(PrintFields(fields))) + ([RBRACE] + r);
      assert Stringify(Obj(fields)) + r == [LBRACE] + inner;
      FieldsRoundTrip(fields, r);
      FieldsStart(fields);
      ParseObject(inner, fields, r);
    }
  }

  lemma ItemsStart(items: seq<Json>)
    requires items != [] && Plain(items[0])
    ensures StartsLikeValue(Join(PrintItems(items)))
  {
    FirstUnit(items[0]);
  }

  lemma FieldsStart(fields: seq<Keyed<Json>>)
    requires fields != []
    ensures Join(Vals(PrintFields(fields))) != [] && Join(Vals(PrintFields(fields)))[0] == QUOTE
  {
    assert Vals(PrintFields(fields))[0][0] == QUOTE;
  }

  lemma {:induction false} ItemsRoundTrip(items: seq<Json>, r: Text)
    requires items != [] && forall i :: 0 <= i < |items| ==> Plain(items[i])
    ensures ParseItems(Join(PrintItems(items)) + ([RBRACKET] + r)) == Some((items, r))
    decreases items, 1
  {
    var end := [RBRACKET] + r;
    var t := Join(PrintItems(items)) + end;
    var v := items[0];
    if |items| == 1 {
      ValueRoundTrip(v, end);
      assert items == [v];
    } else {
      var rest := Join(PrintItems(items[1..])) + end;
      assert t == Stringify(v) + ([COMMA] + rest);
      ValueRoundTrip(v, [COMMA] + rest);
      ItemsRoundTrip(items[1..], r);
      assert ([COMMA] + rest)[1..] == rest;
      assert items == [v] + items[1..];
    }
  }

  lemma FieldsTail(fields: seq<Keyed<Json>>)
    requires fields != []
    ensures Vals(PrintFields(fields)) ==
            [Quote(fields[0].key) + [COLON] + Stringify(fields[0].val)] + Vals(PrintFields(fields[1..]))
  {
  }

  lemma EntryParses(key: Text, val: Json, after: Text, follow: Text)
    requires ParseValue(after) == Some((val, follow))
    ensures ParseEntry(Quote(key) + [COLON] + after) == Some((Keyed(key, val), follow))
  {
    var t := Quote(key) + [COLON] + after;
    var colon := [COLON] + after;
    assert t[0] == QUOTE && t[1..] == Body(key) + ([QUOTE] + colon);
    BodyRoundTrip(key, colon);
    SkipNothing(t);
    SkipNothing(colon);
    assert colon[1..] == after;
  }

  /** What follows the first value: the end, or a comma and the other fields. */
  lemma FieldsText(fields: seq<Keyed<Json>>, end: Text, rest: Text, follow: Text)
    requires fields != [] && rest == Join(Vals(PrintFields(fields[1..]))) + end
    requires follow == if |fields| == 1 then end else [COMMA] + rest
    ensures Join(Vals(PrintFields(fields))) + end ==
            Quote(fields[0].key) + [COLON] + (Stringify(fields[0].val) + follow)
  {
    FieldsTail(fields);
    var head, text := Quote(fields[0].key) + [COLON], Stringify(fields[0].val);
    JoinHead(head + text, Vals(PrintFields(fields[1..])), end);
    Regroup(head, text, follow);
  }

  lemma JoinHead(part: Text, parts: seq<Text>, end: Text)
    ensures Join([part] + parts) + end == part + if parts == [] then end else [COMMA] + (Join(parts) + end)
  {
    assert ([part] + parts)[1..] == parts;
    if parts == [] {
      assert [part] + parts == [part];
    } else {
      Regroup(part + [COMMA], Join(parts), end);
      Regroup(part, [COMMA], Join(parts) + end);
    }
  }

  lemma Regroup(a: Text, b: Text, c: Text)
    ensures (a + b) + c == a + (b + c)
  {
  }

  lemma {:induction false} FieldsRoundTrip(fields: seq<Keyed<Json>>, r: Text)
    requires fields != [] && forall i :: 0 <= i < |fields| ==> Plain(fields[i].val)
    ensures ParseFields(Join(Vals(PrintFields(fields))) + ([RBRACE] + r)) == Some((fields, r))
    decreases fields, 1
  {
    var end := [RBRACE] + r;
    var f := fields[0];
    var rest := Join(Vals(PrintFields(fields[1..]))) + end;
    var follow := if |fields| == 1 then end else [COMMA] + rest;
    FieldsText(fields, end, rest, follow);
    ValueRoundTrip(f.val, follow);
    EntryParses(f.key, f.val, Stringify(f.val) + follow, follow);
    SkipNothing(follow);
    assert f == Keyed(f.key, f.val);
    if |fields| == 1 {
      assert fields == [f] && follow[1..] == r;
    } else {
      FieldsRoundTrip(fields[1..], r);
      assert follow[1..] == rest;
      assert fields == [f] + fields[1..];
    }
  }

  /** JSON.parse undoes JSON.stringify, key order included. */
  lemma ParseStringify(v: Json)
    requires Plain(v)
    ensures Parse(Stringify(v)) == Some(v)
  {
    ValueRoundTrip(v, []);
    assert Stringify(v) + [] == Stringify(v);
  }
}
