/**
 canonicalize and the salted hash input: injective, and uniquely decodable because
 no canonical envelope ends in another one.
 */
module Canonicalize {
  import opened Wrappers
  import opened Json
  import opened JsonProofs
  import opened JsonCanonical
  import opened Utf8

  datatype Part = Index(i: nat) | Key(key: Text)

  type Path = seq<Part>

  const DATA: Text := [100, 97, 116, 97]
  const VERSION: Text := [118, 101, 114, 115, 105, 111, 110]

  // ----- assertJsonPrimitive -----

  /** The path of the first non-JSON value in depth-first order, if there is one. */
  function FirstForeign(v: Json): Option<Path>
    decreases v, 0
  {
    match v
    case Foreign => Some([])
    case Arr(items) => ForeignItem(items, 0)
    case Obj(fields) => ForeignField(fields)
    case _ => None
  }

  function ForeignItem(items: seq<Json>, base: nat): Option<Path>
    decreases items
  {
    if items == [] then None
    else
      match FirstForeign(items[0])
      case Some(p) => Some([Index(base)] + p)
      case None => ForeignItem(items[1..], base + 1)
  }

  function ForeignField(fields: seq<Keyed<Json>>): Option<Path>
    decreases fields
  {
    if fields == [] then None
    else
      match FirstForeign(fields[0].val)
      case Some(p) => Some([Key(fields[0].key)] + p)
      case None => ForeignField(fields[1..])
  }

  /** The check passes exactly the values made of JSON primitives only. */
  lemma {:induction false} AcceptedIffPlain(v: Json)
    ensures FirstForeign(v).None? <==> Plain(v)
    decreases v, 1
  {
    match v
    case Arr(items) => ItemsAccepted(items, 0);
    case Obj(fields) => FieldsAccepted(fields);
    case _ =>
  }

  lemma {:induction false} ItemsAccepted(items: seq<Json>, base: nat)
    ensures ForeignItem(items, base).None? <==> forall i :: 0 <= i < |items| ==> Plain(items[i])
    decreases items, 0
  {
    if items != [] {
      AcceptedIffPlain(items[0]);
      ItemsAccepted(items[1..], base + 1);
      assert forall i :: 0 < i < |items| ==> items[i] == items[1..][i - 1];
    }
  }

  lemma {:induction false} FieldsAccepted(fields: seq<Keyed<Json>>)
    ensures ForeignField(fields).None? <==> forall i :: 0 <= i < |fields| ==> Plain(fields[i].val)
    decreases fields, 0
  {
    if fields != [] {
      AcceptedIffPlain(fields[0].val);
      FieldsAccepted(fields[1..]);
      assert forall i :: 0 < i < |fields| ==> fields[i] == fields[1..][i - 1];
    }
  }

  /** The path leads to a value that is not JSON, and past nothing but JSON. */
  ghost predicate LeadsToFirst(v: Json, path: Path)
    decreases |path|, 0
  {
    if path == [] then v.Foreign?
    else
      match path[0]
      case Index(i) => v.Arr? && i < |v.items| && (forall j | 0 <= j < i :: Plain(v.items[j]))
                       && LeadsToFirst(v.items[i], path[1..])
      case Key(key) => v.Obj? && exists i | 0 <= i < |v.fields| :: FirstUnder(v.fields, i, key, path[1..])
  }

  ghost predicate FirstUnder(fields: seq<Keyed<Json>>, i: nat, key: Text, path: Path)
    requires i < |fields|
    decreases |path|, 1
  {
    fields[i].key == key && (forall j | 0 <= j < i :: Plain(fields[j].val)) && LeadsToFirst(fields[i].val, path)
  }

  /** The path in the error is that of the first value, in depth-first order, that is not JSON. */
  lemma {:induction false} ErrorPathLeadsToFirst(v: Json)
    requires FirstForeign(v).Some?
    ensures LeadsToFirst(v, FirstForeign(v).value)
    decreases v, 1
  {
    match v
    case Arr(items) => var i := ItemPath(items, 0);
    case Obj(fields) => var i := FieldPath(fields);
    case _ =>
  }

  lemma {:induction false} ItemPath(items: seq<Json>, base: nat) returns (i: nat)
    requires ForeignItem(items, base).Some?
    ensures var path := ForeignItem(items, base).value;
      && i < |items| && path != [] && path[0] == Index(base + i) && (forall j | 0 <= j < i :: Plain(items[j]))
      && LeadsToFirst(items[i], path[1..])
    decreases items, 0
  {
    AcceptedIffPlain(items[0]);
    i := 0;
    if FirstForeign(items[0]).Some? {
      ErrorPathLeadsToFirst(items[0]);
    } else {
      i := ItemPath(items[1..], base + 1);
      i := i + 1;
    }
  }

  lemma {:induction false} FieldPath(fields: seq<Keyed<Json>>) returns (i: nat)
    requires ForeignField(fields).Some?
    ensures var path := ForeignField(fields).value;
      i < |fields| && path != [] && path[0] == Key(fields[i].key) && FirstUnder(fields, i, fields[i].key, path[1..])
    decreases fields, 0
  {
    AcceptedIffPlain(fields[0].val);
    i := 0;
    if FirstForeign(fields[0].val).Some? {
      ErrorPathLeadsToFirst(fields[0].val);
    } else {
      i := FieldPath(fields[1..]);
      i := i + 1;
    }
  }

  // ----- canonicalize -----

  function Envelope(payload: Json, version: Text): Json {
    Obj([Keyed(VERSION, Str(version)), Keyed(DATA, payload)])
  }

  /** The canonical bytes, or the path of what is not JSON. */
  function Canonical(payload: Json, version: Text): Result<Bytes, Path> {
    match FirstForeign(payload)
    case Some(path) => Err([Key(DATA)] + path)
    case None => Ok(Encode(StableStringify(Envelope(payload, version))))
  }

  predicate Acceptable(payload: Json) { payload.Obj? && Plain(payload) && Proper(payload) }

  function Inner(payload: Json, version: Text): Text {
    Quote(DATA) + [COLON] + Stringify(Canon(payload)) + [COMMA] + (Quote(VERSION) + [COLON] + Quote(version))
  }

  lemma DataBeforeVersion(x: Keyed<Json>, y: Keyed<Json>)
    requires x.key == VERSION && y.key == DATA
    ensures Sort([x, y]) == [y, x]
  {
    var none: seq<Keyed<Json>> := [];
    assert Less(DATA, VERSION) && [x, y][1..] == [y] && [y][1..] == none;
    assert Insert(x, none) == [x] + none == [x] && Insert(y, none) == [y] + none == [y];
    assert Sort([y]) == Insert(y, Sort(none)) == [y];
    assert [y][1..] == none && Insert(x, [y]) == [y] + Insert(x, none);
  }

  lemma TwoFieldsText(x: Keyed<Json>, y: Keyed<Json>)
    ensures Stringify(Obj([x, y])) ==
            [LBRACE]
            + (Quote(x.key) + [COLON] + Stringify(x.val) + [COMMA] + (Quote(y.key) + [COLON] + Stringify(y.val)))
            + [RBRACE]
  {
    FieldsTail([x, y]);
    FieldsTail([y]);
    assert [x, y][1..] == [y] && [y][1..] == [];
    var parts := Vals(PrintFields([x, y]));
    assert parts == [Quote(x.key) + [COLON] + Stringify(x.val), Quote(y.key) + [COLON] + Stringify(y.val)];
    assert parts[1..] == [parts[1]];
    assert Join(parts) == parts[0] + [COMMA] + parts[1];
    assert Stringify(Obj([x, y])) == [LBRACE] + Join(parts) + [RBRACE];
  }

  lemma EnvelopeText(payload: Json, version: Text)
    ensures StableStringify(Envelope(payload, version)) == [LBRACE] + Inner(payload, version) + [RBRACE]
  {
    var d := Keyed(DATA, payload);
    var x, y := Keyed(VERSION, Str(version)), Keyed(DATA, Canon(payload));
    StableIsCanonical(Envelope(payload, version));
    assert CanonFields([d]) == [y] by { assert [d][1..] == []; }
    assert [x, d][1..] == [d] && CanonFields([x, d]) == [x, y];
    DataBeforeVersion(x, y);
    TwoFieldsText(y, x);
  }

  lemma SameEnvelope(p: Json, v: Text, q: Json, w: Text)
    ensures Same(Envelope(p, v), Envelope(q, w)) <==> v == w && Same(p, q)
  {
    var f, g := Envelope(p, v).fields, Envelope(q, w).fields;
    assert f[0].key == VERSION && f[1].key == DATA && g[0].key == VERSION && g[1].key == DATA;
    assert VERSION[0] != DATA[0];
    assert HasSame(f[0], g) <==> v == w by { if v == w { assert Same(f[0].val, g[0].val); } }
    assert HasSame(f[1], g) <==> Same(p, q) by {
      if Same(p, q) { assert g[1].key == f[1].key && Same(f[1].val, g[1].val); }
    }
  }

  /** Two accepted inputs share their canonical bytes exactly when version and payload are the same. */
  lemma CanonicalInjective(p: Json, v: Text, q: Json, w: Text)
    requires Acceptable(p) && Acceptable(q)
    ensures Canonical(p, v).Ok? && Canonical(q, w).Ok?
    ensures Canonical(p, v) == Canonical(q, w) <==> v == w && Same(p, q)
  {
    AcceptedIffPlain(p);
    AcceptedIffPlain(q);
    var e, f := Envelope(p, v), Envelope(q, w);
    EnvelopeProper(p, v);
    EnvelopeProper(q, w);
    StableIsCanonical(e);
    StableIsCanonical(f);
    StringifyWellFormed(Canon(e));
    StringifyWellFormed(Canon(f));
    Utf8RoundTrip(StableStringify(e));
    Utf8RoundTrip(StableStringify(f));
    StableEqualIffSame(e, f);
    SameEnvelope(p, v, q, w);
  }

  lemma EnvelopeProper(p: Json, v: Text)
    requires Acceptable(p)
    ensures Plain(Envelope(p, v)) && Proper(Envelope(p, v))
  {
    assert VERSION[0] != DATA[0];
  }

  // ----- Scanning: where strings are, and how deep the brackets -----

  datatype Mode = Out(depth: int) | In(depth: int) | Esc(depth: int) | Dead

  /** Everything a canonical text may contain between its strings. */
  predicate Structural(c: int) {
    c in {COMMA, COLON, MINUS} || 48 <= c <= 57 || c in {97, 101, 102, 108, 110, 114, 115, 116, 117}
  }

  function ScanStep(m: Mode, c: int): Mode {
    match m
    case Out(d) =>
      if c == QUOTE then In(d)
      else if c == LBRACE || c == LBRACKET then Out(d + 1)
      else if c == RBRACE || c == RBRACKET then Out(d - 1)
      else if Structural(c) then m
      else Dead
    case In(d) => if c == QUOTE then Out(d) else if c == BACKSLASH then Esc(d) else m
    case Esc(d) => In(d)
    case Dead => Dead
  }

  function Scan(m: Mode, t: seq<int>): Mode
    decreases |t|
  {
    if t == [] then m else Scan(ScanStep(m, t[0]), t[1..])
  }

  /** Never dead and never shallower than `d`, from start to end. */
  predicate Above(m: Mode, t: seq<int>, d: int)
    decreases |t|
  {
    m != Dead && m.depth >= d && (t == [] || Above(ScanStep(m, t[0]), t[1..], d))
  }

  /** Scanning `t` from `m` stays above `d` and ends in `n`. */
  predicate Goes(m: Mode, t: seq<int>, d: int, n: Mode) { Above(m, t, d) && Scan(m, t) == n }

  lemma {:induction false} GoesAppend(m: Mode, a: seq<int>, n: Mode, b: seq<int>, o: Mode, d: int)
    requires Goes(m, a, d, n) && Goes(n, b, d, o)
    ensures Goes(m, a + b, d, o)
    decreases |a|
  {
    if a == [] {
      assert a + b == b;
    } else {
      assert (a + b)[1..] == a[1..] + b;
      GoesAppend(ScanStep(m, a[0]), a[1..], n, b, o, d);
    }
  }

  lemma GoesOne(m: Mode, c: int, d: int)
    requires m != Dead && m.depth >= d && ScanStep(m, c) != Dead && ScanStep(m, c).depth >= d
    ensures Goes(m, [c], d, ScanStep(m, c))
  {
    assert [c][1..] == [];
  }

  lemma {:induction false} GoesShallower(m: Mode, t: seq<int>, d: int, e: int)
    requires Above(m, t, d) && e <= d
    ensures Above(m, t, e)
    decreases |t|
  {
    if t != [] { GoesShallower(ScanStep(m, t[0]), t[1..], d, e); }
  }

  lemma {:induction false} ScanAppend(m: Mode, a: seq<int>, b: seq<int>)
    ensures Scan(m, a + b) == Scan(Scan(m, a), b)
    decreases |a|
  {
    if a == [] {
      assert a + b == b;
    } else {
      assert (a + b)[1..] == a[1..] + b;
      ScanAppend(ScanStep(m, a[0]), a[1..], b);
    }
  }

  lemma {:induction false} AbovePrefix(m: Mode, t: seq<int>, d: int, k: nat)
    requires Above(m, t, d) && k <= |t|
    ensures Scan(m, t[..k]) != Dead && Scan(m, t[..k]).depth >= d
    decreases k
  {
    if k > 0 {
      assert t[..k][1..] == t[1..][..k - 1];
      AbovePrefix(ScanStep(m, t[0]), t[1..], d, k - 1);
    }
  }

  lemma {:induction false} ScanDead(t: seq<int>)
    ensures Scan(Dead, t) == Dead
  {
    if t != [] { ScanDead(t[1..]); }
  }

  /** Digits, minus signs and the three literals leave the scanner where it is. */
  lemma {:induction false} GoesStructural(t: seq<int>, d: int)
    requires forall i :: 0 <= i < |t| ==> Structural(t[i])
    ensures Goes(Out(d), t, d, Out(d))
  {
    if t != [] { GoesStructural(t[1..], d); }
  }

  lemma EscapeGoes(u: Unit, d: int)
    ensures Goes(In(d), Escape(u), d, In(d))
  {
    var t := Escape(u);
    if |t| == 6 {
      assert t[2..] == Hex4(u) && t[1..] == [117] + t[2..];
      InString(Hex4(u), d);
      GoesOne(Esc(d), 117, d);
      GoesAppend(Esc(d), [117], In(d), t[2..], In(d), d);
      GoesOne(In(d), BACKSLASH, d);
      GoesAppend(In(d), [BACKSLASH], Esc(d), t[1..], In(d), d);
      assert t == [BACKSLASH] + t[1..];
    } else if |t| == 2 {
      GoesOne(Esc(d), t[1], d);
      GoesOne(In(d), BACKSLASH, d);
      GoesAppend(In(d), [BACKSLASH], Esc(d), [t[1]], In(d), d);
      assert t == [BACKSLASH] + [t[1]];
    } else {
      InString(t, d);
    }
  }

  lemma {:induction false} InString(t: seq<int>, d: int)
    requires forall i :: 0 <= i < |t| ==> t[i] != QUOTE && t[i] != BACKSLASH
    ensures Goes(In(d), t, d, In(d))
  {
    if t != [] { InString(t[1..], d); }
  }

  lemma {:induction false} BodyGoes(s: Text, d: int)
    ensures Goes(In(d), Body(s), d, In(d))
  {
    if s != [] {
      if StartsWithPair(s) {
        InString(s[..2], d);
        BodyGoes(s[2..], d);
        GoesAppend(In(d), s[..2], In(d), Body(s[2..]), In(d), d);
      } else {
        EscapeGoes(s[0], d);
        BodyGoes(s[1..], d);
        GoesAppend(In(d), Escape(s[0]), In(d), Body(s[1..]), In(d), d);
      }
    }
  }

  lemma QuoteGoes(s: Text, d: int)
    ensures Goes(Out(d), Quote(s), d, Out(d))
  {
    BodyGoes(s, d);
    GoesOne(Out(d), QUOTE, d);
    GoesOne(In(d), QUOTE, d);
    GoesAppend(Out(d), [QUOTE], In(d), Body(s), In(d), d);
    GoesAppend(Out(d), [QUOTE] + Body(s), In(d), [QUOTE], Out(d), d);
  }

  lemma BracketsGo(open: Unit, inner: Text, close: Unit, d: int)
    requires Goes(Out(d + 1), inner, d + 1, Out(d + 1))
    requires open in {LBRACE, LBRACKET} && close in {RBRACE, RBRACKET}
    ensures Goes(Out(d), [open] + inner + [close], d, Out(d))
  {
    GoesShallower(Out(d + 1), inner, d + 1, d);
    GoesOne(Out(d), open, d);
    GoesOne(Out(d + 1), close, d);
    GoesAppend(Out(d), [open], Out(d + 1), inner, Out(d + 1), d);
    GoesAppend(Out(d), [open] + inner, Out(d + 1), [close], Out(d), d);
  }

  lemma {:induction false} DecStructural(n: nat)
    ensures forall i :: 0 <= i < |Dec(n)| ==> Structural(Dec(n)[i])
  {
    if n >= 10 { DecStructural(n / 10); }
  }

  /** A printed value is balanced and never goes below the depth it started at. */
  lemma {:induction false} ValueGoes(v: Json, d: int)
    ensures Goes(Out(d), Stringify(v), d, Out(d))
    decreases v, 1
  {
    match v
    case Null => GoesStructural(NULL, d);
    case Bool(b) => GoesStructural(TRUE, d); GoesStructural(FALSE, d);
    case Num(n) =>
      DecStructural(if n < 0 then -n else n);
      GoesStructural(PrintInt(n), d);
    case Str(s) => QuoteGoes(s, d);
    case Arr(items) =>
      ItemsGo(items, d + 1);
      BracketsGo(LBRACKET, Join(PrintItems(items)), RBRACKET, d);
    case Obj(fields) =>
      FieldsGo(fields, d + 1);
      BracketsGo(LBRACE, Join(Vals(PrintFields(fields))), RBRACE, d);
    case Foreign =>
  }

  lemma JoinGoes(a: Text, rest: Text, d: int)
    requires Goes(Out(d), a, d, Out(d)) && Goes(Out(d), rest, d, Out(d))
    ensures Goes(Out(d), a + [COMMA] + rest, d, Out(d))
  {
    GoesOne(Out(d), COMMA, d);
    GoesAppend(Out(d), a, Out(d), [COMMA], Out(d), d);
    GoesAppend(Out(d), a + [COMMA], Out(d), rest, Out(d), d);
  }

  lemma {:induction false} ItemsGo(items: seq<Json>, d: int)
    ensures Goes(Out(d), Join(PrintItems(items)), d, Out(d))
    decreases items, 0
  {
    if items != [] {
      ValueGoes(items[0], d);
      ItemsGo(items[1..], d);
      JoinGoes(Stringify(items[0]), Join(PrintItems(items[1..])), d);
      assert PrintItems(items)[1..] == PrintItems(items[1..]);
    }
  }

  lemma FieldGoes(key: Text, val: Text, d: int)
    requires Goes(Out(d), val, d, Out(d))
    ensures Goes(Out(d), Quote(key) + [COLON] + val, d, Out(d))
  {
    QuoteGoes(key, d);
    GoesOne(Out(d), COLON, d);
    GoesAppend(Out(d), Quote(key), Out(d), [COLON], Out(d), d);
    GoesAppend(Out(d), Quote(key) + [COLON], Out(d), val, Out(d), d);
  }

  lemma {:induction false} FieldsGo(fields: seq<Keyed<Json>>, d: int)
    ensures Goes(Out(d), Join(Vals(PrintFields(fields))), d, Out(d))
    decreases fields, 0
  {
    if fields != [] {
      ValueGoes(fields[0].val, d);
      FieldGoes(fields[0].key, Stringify(fields[0].val), d);
      FieldsGo(fields[1..], d);
      JoinGoes(Quote(fields[0].key) + [COLON] + Stringify(fields[0].val), Join(Vals(PrintFields(fields[1..]))), d);
      assert Vals(PrintFields(fields))[1..] == Vals(PrintFields(fields[1..]));
    }
  }

  // ----- The same scan on UTF-8 bytes -----

  lemma HighBytes(m: Mode, bytes: seq<int>, d: int)
    requires bytes != [] && forall i :: 0 <= i < |bytes| ==> bytes[i] >= 0x80
    requires m.In? || m.Esc?
    requires m.depth >= d
    ensures Goes(m, bytes, d, In(m.depth))
  {
    InString(bytes[1..], m.depth);
    GoesShallower(In(m.depth), bytes[1..], m.depth, d);
  }

  /** Bytes of multi-byte characters occur in strings only, so the encoded text scans like the text. */
  lemma {:induction false} EncodedGoes(m: Mode, t: Text, d: int, n: Mode)
    requires Goes(m, t, d, n)
    ensures Goes(m, Encode(t), d, n)
    decreases |t|
  {
    if t != [] {
      var m1 := ScanStep(m, t[0]);
      if StartsWithPair(t) {
        var m2 := ScanStep(m1, t[1]);
        assert t[1..][1..] == t[2..] && t[1..][0] == t[1];
        assert Above(m1, t[1..], d) && Scan(m1, t[1..]) == n;
        assert Above(m2, t[2..], d) && Scan(m2, t[2..]) == n;
        EncodedGoes(m2, t[2..], d, n);
        HighBytes(m, EncodePair(t[0], t[1]), d);
        GoesAppend(m, EncodePair(t[0], t[1]), m2, Encode(t[2..]), n, d);
      } else {
        assert Above(m1, t[1..], d);
        EncodedGoes(m1, t[1..], d, n);
        if t[0] < 0x80 {
          GoesOne(m, t[0], d);
        } else {
          HighBytes(m, EncodeOne(t[0]), d);
        }
        GoesAppend(m, EncodeOne(t[0]), m1, Encode(t[1..]), n, d);
      }
    }
  }

  // ----- No canonical envelope ends in another -----

  lemma InnerGoes(payload: Json, version: Text, d: int)
    ensures Goes(Out(d), Inner(payload, version), d, Out(d))
  {
    ValueGoes(Canon(payload), d);
    FieldGoes(DATA, Stringify(Canon(payload)), d);
    QuoteGoes(version, d);
    FieldGoes(VERSION, Quote(version), d);
    JoinGoes(Quote(DATA) + [COLON] + Stringify(Canon(payload)), Quote(VERSION) + [COLON] + Quote(version), d);
  }

  /** The bytes are an opening brace, a part that scans level, and a closing brace; they begin {"d. */
  lemma EnvelopeBytes(payload: Json, version: Text) returns (inner: Bytes)
    requires Acceptable(payload)
    ensures Canonical(payload, version) == Ok([LBRACE] + inner + [RBRACE])
    ensures |inner| >= 2 && inner[0] == QUOTE && inner[1] == 100
    ensures forall d :: Goes(Out(d), inner, d, Out(d))
  {
    AcceptedIffPlain(payload);
    EnvelopeText(payload, version);
    var t := Inner(payload, version);
    CanonKeepsPlain(payload);
    InnerWellFormed(payload, version);
    Wrap(LBRACE, t, RBRACE);
    inner := Encode(t);
    forall d ensures Goes(Out(d), inner, d, Out(d)) {
      InnerGoes(payload, version, d);
      EncodedGoes(Out(d), t, d, Out(d));
    }
    assert Body(DATA)[0] == 100 by { assert !StartsWithPair(DATA) && Escape(100) == [100]; }
    assert t[0] == QUOTE && t[1] == 100;
    assert t[1..][0] == 100;
  }

  lemma InnerWellFormed(payload: Json, version: Text)
    ensures WellFormed(Inner(payload, version))
  {
    StringifyWellFormed(Canon(payload));
    FieldWellFormed(DATA, Stringify(Canon(payload)));
    StringifyWellFormed(Str(version));
    FieldWellFormed(VERSION, Quote(version));
    JoinWellFormed(Quote(DATA) + [COLON] + Stringify(Canon(payload)), Quote(VERSION) + [COLON] + Quote(version));
  }

  lemma ScanThree(m: Mode, e: seq<int>)
    requires |e| >= 3 && e[0] == LBRACE && e[1] == QUOTE && e[2] == 100
    ensures m.In? || m.Esc? ==> Scan(m, e) == Dead
  {
    if m.In? || m.Esc? {
      assert e[1..][1..] == e[2..] && e[2..][1..] == e[3..];
      assert Scan(m, e) == Scan(In(m.depth), e[1..]) == Scan(Out(m.depth), e[2..]) == Scan(Dead, e[3..]);
      ScanDead(e[3..]);
    }
  }

  /** No proper suffix of a canonical envelope is itself a canonical envelope. */
  lemma NoEnvelopeInsideEnvelope(p: Json, v: Text, q: Json, w: Text, k: nat)
    requires Acceptable(p) && Acceptable(q) && Canonical(p, v).Ok? && Canonical(q, w).Ok?
    requires 0 < k <= |Canonical(p, v).value|
    ensures Canonical(p, v).value[k..] != Canonical(q, w).value
  {
    var a := EnvelopeBytes(p, v);
    var b := EnvelopeBytes(q, w);
    var e, f := Canonical(p, v).value, Canonical(q, w).value;
    if e[k..] == f {
      var pre := e[..k];
      assert e == pre + f;
      assert k < |e|;
      assert pre[1..] == a[..k - 1];
      assert pre == [LBRACE] + a[..k - 1];
      var m := Scan(Out(0), pre);
      assert m == Scan(Out(1), a[..k - 1]);
      AbovePrefix(Out(1), a, 1, k - 1);
      ScanAppend(Out(0), pre, f);
      BracketsGo(LBRACE, a, RBRACE, 0);
      assert Scan(m, f) == Out(0);
      if m.Out? {
        BracketsGo(LBRACE, b, RBRACE, m.depth);
      } else {
        ScanThree(m, f);
      }
    }
  }

  // ----- hashPayload -----

  /** What is hashed: the canonical bytes, after the salt's bytes when there is a salt. */
  function HashInput(payload: Json, version: Text, salt: Text): Result<Bytes, Path> {
    match Canonical(payload, version)
    case Err(path) => Err(path)
    case Ok(raw) => Ok(if salt == [] then raw else Encode(salt) + raw)
  }

  lemma SuffixesCompare(s: Bytes, e: Bytes, t: Bytes, f: Bytes)
    requires s + e == t + f && |e| >= |f|
    ensures e[|e| - |f|..] == f
    ensures |e| == |f| ==> e == f && s == t
  {
    assert (s + e)[|s|..] == e && (t + f)[|t|..] == f;
    assert (s + e)[..|s|] == s && (t + f)[..|t|] == t;
    assert e[|e| - |f|..] == (s + e)[|s| + |e| - |f|..];
  }

  /** Salted or not, the hashed bytes determine the salt's bytes, the payload and the version. */
  lemma HashInputUnique(p: Json, v: Text, s: Text, q: Json, w: Text, t: Text)
    requires Acceptable(p) && Acceptable(q)
    ensures HashInput(p, v, s) == HashInput(q, w, t) <==> Encode(s) == Encode(t) && v == w && Same(p, q)
  {
    CanonicalInjective(p, v, q, w);
    var e, f := Canonical(p, v).value, Canonical(q, w).value;
    assert HashInput(p, v, s) == Ok(Encode(s) + e) by { assert Encode([]) + e == e; }
    assert HashInput(q, w, t) == Ok(Encode(t) + f) by { assert Encode([]) + f == f; }
    if Encode(s) + e == Encode(t) + f {
      if |e| >= |f| {
        SuffixesCompare(Encode(s), e, Encode(t), f);
        if |e| > |f| { NoEnvelopeInsideEnvelope(p, v, q, w, |e| - |f|); }
      } else {
        SuffixesCompare(Encode(t), f, Encode(s), e);
        NoEnvelopeInsideEnvelope(q, w, p, v, |f| - |e|);
      }
    }
  }

  ghost predicate CollisionFree<D(!new)>(hash: Bytes -> D) {
    forall a, b :: hash(a) == hash(b) ==> a == b
  }

  function HashPayload<D>(hash: Bytes -> D, payload: Json, version: Text, salt: Text): Result<D, Path> {
    match HashInput(payload, version, salt)
    case Err(path) => Err(path)
    case Ok(raw) => Ok(hash(raw))
  }

  /** With a collision-free hash and salts without lone surrogates, equal digests mean equal inputs. */
  lemma DigestDeterminesInput<D(!new)>(hash: Bytes -> D, p: Json, v: Text, s: Text, q: Json, w: Text, t: Text)
    requires CollisionFree(hash) && Acceptable(p) && Acceptable(q) && WellFormed(s) && WellFormed(t)
    ensures HashPayload(hash, p, v, s) == HashPayload(hash, q, w, t) <==> s == t && v == w && Same(p, q)
  {
    HashInputUnique(p, v, s, q, w, t);
    CanonicalInjective(p, v, q, w);
    Utf8RoundTrip(s);
    Utf8RoundTrip(t);
  }

  /** For salts of any kind: equal digests mean equal version and payload, and salts that differ in lone surrogates
   only. */
  lemma DigestsEqualIffScrubbed<D(!new)>(hash: Bytes -> D, p: Json, v: Text, s: Text, q: Json, w: Text, t: Text)
    requires CollisionFree(hash) && Acceptable(p) && Acceptable(q)
    ensures HashPayload(hash, p, v, s) == HashPayload(hash, q, w, t) <==>
      Scrubbed(s) == Scrubbed(t) && v == w && Same(p, q)
  {
    HashInputUnique(p, v, s, q, w, t);
    CanonicalInjective(p, v, q, w);
    SameBytesIffSameScrubbed(s, t);
  }

  /** Exactly the salts with a lone surrogate have a different well-formed twin with the same digest. */
  lemma MalformedSaltHasTwin<D(!new)>(hash: Bytes -> D, p: Json, v: Text, s: Text)
    requires CollisionFree(hash) && Acceptable(p)
    ensures !WellFormed(s) <==>
      exists t :: t != s && WellFormed(t) && HashPayload(hash, p, v, t) == HashPayload(hash, p, v, s)
  {
    ScrubbedSameBytes(s);
    DigestsEqualIffScrubbed(hash, p, v, Scrubbed(s), p, v, s);
    SameBytesIffSameScrubbed(Scrubbed(s), s);
    forall t | t != s && WellFormed(t) && HashPayload(hash, p, v, t) == HashPayload(hash, p, v, s)
      ensures !WellFormed(s)
    {
      DigestsEqualIffScrubbed(hash, p, v, t, p, v, s);
      ScrubbedSameBytes(t);
    }
  }

  /** A lone surrogate in a salt is lost: two different salts, one digest. */
  lemma LoneSurrogateSaltsCollide<D>(hash: Bytes -> D, p: Json, v: Text)
    requires Acceptable(p)
    ensures HashPayload(hash, p, v, [0xD800]) == HashPayload(hash, p, v, [0xDFFF])
  {
    assert Encode([0xD800]) == Encode([0xDFFF]);
  }
}
