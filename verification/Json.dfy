/**
 JSON values, the two printers, and a parser for the grammar of RFC 8259
 (sections 2 to 7, numbers restricted to integers).

 A text is a sequence of UTF-16 code units, as a JavaScript string is.
 */
module Json {
  import opened Wrappers

  type Unit = u: int | 0 <= u < 0x10000

  type Text = seq<Unit>

  const QUOTE: Unit := 34
  const COMMA: Unit := 44
  const MINUS: Unit := 45
  const COLON: Unit := 58
  const LBRACKET: Unit := 91
  const BACKSLASH: Unit := 92
  const RBRACKET: Unit := 93
  const LBRACE: Unit := 123
  const RBRACE: Unit := 125
  const NULL: Text := [110, 117, 108, 108]
  const TRUE: Text := [116, 114, 117, 101]
  const FALSE: Text := [102, 97, 108, 115, 101]

  datatype Keyed<T> = Keyed(key: Text, val: T)

  /** `Foreign` is anything that is not a JSON value: NaN, undefined, a Date, a function. */
  datatype Json =
    | Null
    | Bool(b: bool)
    | Num(n: int)
    | Str(s: Text)
    | Arr(items: seq<Json>)
    | Obj(fields: seq<Keyed<Json>>)
    | Foreign

  // ----- Values -----

  predicate Plain(v: Json) {
    match v
    case Arr(items) => forall i :: 0 <= i < |items| ==> Plain(items[i])
    case Obj(fields) => forall i :: 0 <= i < |fields| ==> Plain(fields[i].val)
    case Foreign => false
    case _ => true
  }

  predicate DistinctKeys<T>(fields: seq<Keyed<T>>) {
    forall i, j :: 0 <= i < j < |fields| ==> fields[i].key != fields[j].key
  }

  /** An object never has the same key twice. */
  predicate Proper(v: Json) {
    match v
    case Arr(items) => forall i :: 0 <= i < |items| ==> Proper(items[i])
    case Obj(fields) => DistinctKeys(fields) && forall i :: 0 <= i < |fields| ==> Proper(fields[i].val)
    case _ => true
  }

  /** Equal up to the insertion order of keys, at every depth. */
  ghost predicate Same(v: Json, w: Json)
    decreases v
  {
    match v
    case Arr(a) => w.Arr? && |a| == |w.items| && forall i :: 0 <= i < |a| ==> Same(a[i], w.items[i])
    case Obj(f) =>
      && w.Obj? && |f| == |w.fields|
      && forall i :: 0 <= i < |f| ==> HasSame(f[i], w.fields)
    case _ => v == w
  }

  /** Some entry has the same key and the same value. */
  ghost predicate HasSame(x: Keyed<Json>, g: seq<Keyed<Json>>)
    decreases x
  {
    exists j :: 0 <= j < |g| && g[j].key == x.key && Same(x.val, g[j].val)
  }

  // ----- Strings -----

  predicate IsHigh(u: Unit) { 0xD800 <= u < 0xDC00 }

  predicate IsLow(u: Unit) { 0xDC00 <= u < 0xE000 }

  predicate StartsWithPair(t: Text) { |t| >= 2 && IsHigh(t[0]) && IsLow(t[1]) }

  function HexDigit(d: nat): Unit
    requires d < 16
  {
    if d < 10 then 48 + d else 87 + d
  }

  function Hex4(u: Unit): Text {
    [HexDigit(u / 4096), HexDigit(u / 256 % 16), HexDigit(u / 16 % 16), HexDigit(u % 16)]
  }

  /** One code unit inside a JSON string, as JSON.stringify writes it; lone surrogates are escaped. */
  function Escape(u: Unit): Text {
    if u == QUOTE || u == BACKSLASH then [BACKSLASH, u]
    else if u == 8 then [BACKSLASH, 98]
    else if u == 12 then [BACKSLASH, 102]
    else if u == 10 then [BACKSLASH, 110]
    else if u == 13 then [BACKSLASH, 114]
    else if u == 9 then [BACKSLASH, 116]
    else if u < 32 || IsHigh(u) || IsLow(u) then [BACKSLASH, 117] + Hex4(u)
    else [u]
  }

  function Body(s: Text): Text {
    if s == [] then []
    else if StartsWithPair(s) then s[..2] + Body(s[2..])
    else Escape(s[0]) + Body(s[1..])
  }

  function Quote(s: Text): Text { [QUOTE] + Body(s) + [QUOTE] }

  function HexValue(c: Unit): Option<nat> {
    if 48 <= c <= 57 then Some(c - 48)
    else if 97 <= c <= 102 then Some(c - 87)
    else if 65 <= c <= 70 then Some(c - 55)
    else None
  }

  function Hex4Value(t: Text): Option<Unit>
    requires |t| == 4
  {
    var a, b, c, d := HexValue(t[0]), HexValue(t[1]), HexValue(t[2]), HexValue(t[3]);
    if a.Some? && b.Some? && c.Some? && d.Some? && a.value < 16 && b.value < 16 && c.value < 16 && d.value < 16
    then Some(a.value * 4096 + b.value * 256 + c.value * 16 + d.value) else None
  }

  function Unescape(c: Unit): Option<Unit> {
    if c == QUOTE || c == BACKSLASH || c == 47 then Some(c)
    else if c == 98 then Some(8)
    else if c == 102 then Some(12)
    else if c == 110 then Some(10)
    else if c == 114 then Some(13)
    else if c == 116 then Some(9)
    else None
  }

  function Cons(u: Unit, tail: Option<(Text, Text)>): (r: Option<(Text, Text)>) {
    match tail
    case None => None
    case Some(p) => Some(([u] + p.0, p.1))
  }

  /** The rest of a string after its opening quote. */
  function ParseBody(t: Text): (r: Option<(Text, Text)>)
    ensures r.Some? ==> |r.value.1| < |t|
  {
    if t == [] || t[0] < 32 then None
    else if t[0] == QUOTE then Some(([], t[1..]))
    else if t[0] == BACKSLASH then
      if |t| < 2 then None
      else if t[1] == 117 then
        if |t| < 6 then None
        else
          var u := Hex4Value(t[2..6]);
          if u.None? then None else Cons(u.value, ParseBody(t[6..]))
      else
        var u := Unescape(t[1]);
        if u.None? then None else Cons(u.value, ParseBody(t[2..]))
    else Cons(t[0], ParseBody(t[1..]))
  }

  // ----- Numbers -----

  predicate IsDigit(u: Unit) { 48 <= u <= 57 }

  function Dec(n: nat): Text {
    if n < 10 then [48 + n] else Dec(n / 10) + [48 + n % 10]
  }

  function PrintInt(n: int): Text { if n < 0 then [MINUS] + Dec(-n) else Dec(n) }

  function Digits(t: Text): Text {
    if t == [] || !IsDigit(t[0]) then [] else [t[0]] + Digits(t[1..])
  }

  function Value(ds: Text): int {
    if ds == [] then 0 else Value(ds[..|ds| - 1]) * 10 + ds[|ds| - 1] - 48
  }

  /** A digit string without a leading zero; a fraction or an exponent is not an integer. */
  function ParseNat(t: Text): (r: Option<(int, Text)>)
    ensures r.Some? ==> |r.value.1| < |t|
  {
    var all := Digits(t);
    DigitsPrefix(t);
    if all == [] then None
    else
      var ds := if all[0] == 48 then all[..1] else all;
      var rest := t[|ds|..];
      if rest != [] && rest[0] in {46, 69, 101} then None else Some((Value(ds), rest))
  }

  lemma {:induction false} DigitsPrefix(t: Text)
    ensures Digits(t) <= t
  {
    if t != [] && IsDigit(t[0]) { DigitsPrefix(t[1..]); }
  }

  // ----- Printing -----

  function Join(parts: seq<Text>): Text {
    if parts == [] then []
    else if |parts| == 1 then parts[0]
    else parts[0] + [COMMA] + Join(parts[1..])
  }

  function Vals<T>(entries: seq<Keyed<T>>): seq<T> {
    seq(|entries|, i requires 0 <= i < |entries| => entries[i].val)
  }

  /** JSON.stringify: keys in insertion order. */
  function Stringify(v: Json): Text
    decreases v, 0
  {
    match v
    case Null => NULL
    case Bool(b) => if b then TRUE else FALSE
    case Num(n) => PrintInt(n)
    case Str(s) => Quote(s)
    case Arr(items) => [LBRACKET] + Join(PrintItems(items)) + [RBRACKET]
    case Obj(fields) => [LBRACE] + Join(Vals(PrintFields(fields))) + [RBRACE]
    case Foreign => []
  }

  function PrintItems(items: seq<Json>): (r: seq<Text>)
    ensures |r| == |items|
    decreases items
  {
    if items == [] then [] else [Stringify(items[0])] + PrintItems(items[1..])
  }

  function PrintFields(fields: seq<Keyed<Json>>): (r: seq<Keyed<Text>>)
    ensures |r| == |fields|
    decreases fields
  {
    if fields == [] then []
    else [Keyed(fields[0].key, Quote(fields[0].key) + [COLON] + Stringify(fields[0].val))] + PrintFields(fields[1..])
  }

  /** Lexicographic order on code units. */
  predicate Less(a: Text, b: Text) {
    b != [] && (a == [] || a[0] < b[0] || (a[0] == b[0] && Less(a[1..], b[1..])))
  }

  function Insert<T>(x: Keyed<T>, sorted: seq<Keyed<T>>): seq<Keyed<T>> {
    if sorted == [] || !Less(sorted[0].key, x.key) then [x] + sorted
    else [sorted[0]] + Insert(x, sorted[1..])
  }

  function Sort<T>(xs: seq<Keyed<T>>): seq<Keyed<T>> {
    if xs == [] then [] else Insert(xs[0], Sort(xs[1..]))
  }

  /** The canonical printer: keys sorted at every depth, no whitespace. */
  function StableStringify(v: Json): Text
    decreases v, 0
  {
    match v
    case Arr(items) => [LBRACKET] + Join(StableItems(items)) + [RBRACKET]
    case Obj(fields) => [LBRACE] + Join(Vals(Sort(StableFields(fields)))) + [RBRACE]
    case _ => Stringify(v)
  }

  function StableItems(items: seq<Json>): (r: seq<Text>)
    ensures |r| == |items|
    decreases items
  {
    if items == [] then [] else [StableStringify(items[0])] + StableItems(items[1..])
  }

  function StableFields(fields: seq<Keyed<Json>>): (r: seq<Keyed<Text>>)
    ensures |r| == |fields|
    decreases fields
  {
    if fields == [] then []
    else [Keyed(fields[0].key,
      Quote(fields[0].key) + [COLON] + StableStringify(fields[0].val))] + StableFields(fields[1..])
  }

  // ----- Parsing -----

  predicate IsWs(u: Unit) { u == 32 || u == 9 || u == 10 || u == 13 }

  function SkipWs(t: Text): (r: Text)
    ensures |r| <= |t|
  {
    if t != [] && IsWs(t[0]) then SkipWs(t[1..]) else t
  }

  function ParseLiteral(t: Text, literal: Text, v: Json): (r: Option<(Json, Text)>)
    requires literal != []
    ensures r.Some? ==> |r.value.1| < |t|
  {
    if literal <= t then Some((v, t[|literal|..])) else None
  }

  function ParseNumber(t: Text): (r: Option<(Json, Text)>)
    ensures r.Some? ==> |r.value.1| < |t|
  {
    if t == [] then None
    else if t[0] == MINUS then
      match ParseNat(t[1..])
      case None => None
      case Some(p) => Some((Num(-p.0), p.1))
    else
      match ParseNat(t)
      case None => None
      case Some(p) => Some((Num(p.0), p.1))
  }

  function ParseValue(s: Text): (r: Option<(Json, Text)>)
    ensures r.Some? ==> |r.value.1| < |s|
    decreases |s|, 0
  {
    var t := SkipWs(s);
    if t == [] then None
    else if t[0] == 110 then ParseLiteral(t, NULL, Null)
    else if t[0] == 116 then ParseLiteral(t, TRUE, Bool(true))
    else if t[0] == 102 then ParseLiteral(t, FALSE, Bool(false))
    else if t[0] == QUOTE then
      match ParseBody(t[1..])
      case None => None
      case Some(p) => Some((Str(p.0), p.1))
    else if t[0] == LBRACKET then
      var u := SkipWs(t[1..]);
      if u != [] && u[0] == RBRACKET then Some((Arr([]), u[1..]))
      else
        match ParseItems(u)
        case None => None
        case Some(p) => Some((Arr(p.0), p.1))
    else if t[0] == LBRACE then
      var u := SkipWs(t[1..]);
      if u != [] && u[0] == RBRACE then Some((Obj([]), u[1..]))
      else
        match ParseFields(u)
        case None => None
        case Some(p) => Some((Obj(p.0), p.1))
    else ParseNumber(t)
  }

  function ParseItems(s: Text): (r: Option<(seq<Json>, Text)>)
    ensures r.Some? ==> |r.value.1| < |s|
    decreases |s|, 1
  {
    match ParseValue(s)
    case None => None
    case Some(p) =>
      var u := SkipWs(p.1);
      if u == [] then None
      else if u[0] == RBRACKET then Some(([p.0], u[1..]))
      else if u[0] == COMMA then
        match ParseItems(u[1..])
        case None => None
        case Some(q) => Some(([p.0] + q.0, q.1))
      else None
  }

  /** One key, its colon and its value. */
  function ParseEntry(s: Text): (r: Option<(Keyed<Json>, Text)>)
    ensures r.Some? ==> |r.value.1| < |s|
    decreases |s|, 1
  {
    var t := SkipWs(s);
    if t == [] || t[0] != QUOTE then None
    else
      match ParseBody(t[1..])
      case None => None
      case Some(k) =>
        var c := SkipWs(k.1);
        if c == [] || c[0] != COLON then None
        else
          match ParseValue(c[1..])
          case None => None
          case Some(p) => Some((Keyed(k.0, p.0), p.1))
  }

  function ParseFields(s: Text): (r: Option<(seq<Keyed<Json>>, Text)>)
    ensures r.Some? ==> |r.value.1| < |s|
    decreases |s|, 2
  {
    match ParseEntry(s)
    case None => None
    case Some(p) =>
      var u := SkipWs(p.1);
      if u == [] then None
      else if u[0] == RBRACE then Some(([p.0], u[1..]))
      else if u[0] == COMMA then
        match ParseFields(u[1..])
        case None => None
        case Some(q) => Some(([p.0] + q.0, q.1))
      else None
  }

  /** A whole JSON text: one value and nothing but whitespace after it. */
  function Parse(t: Text): Option<Json> {
    match ParseValue(t)
    case None => None
    case Some(p) => if SkipWs(p.1) == [] then Some(p.0) else None
  }
}
