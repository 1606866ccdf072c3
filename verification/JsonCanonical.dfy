/** The canonical printer prints the canonical form, and two values share it exactly when they are the same up to key
 order. */
module JsonCanonical {
  import opened Wrappers
  import opened Json
  import opened JsonProofs

  /** Keys sorted at every depth. */
  function Canon(v: Json): Json
    decreases v, 0
  {
    match v
    case Arr(items) => Arr(CanonItems(items))
    case Obj(fields) => Obj(Sort(CanonFields(fields)))
    case _ => v
  }

  function CanonItems(items: seq<Json>): (r: seq<Json>)
    ensures |r| == |items|
    decreases items
  {
    if items == [] then [] else [Canon(items[0])] + CanonItems(items[1..])
  }

  function CanonFields(fields: seq<Keyed<Json>>): (r: seq<Keyed<Json>>)
    ensures |r| == |fields|
    decreases fields
  {
    if fields == [] then [] else [Keyed(fields[0].key, Canon(fields[0].val))] + CanonFields(fields[1..])
  }

  // ----- Sorting -----

  predicate Sorted<T>(xs: seq<Keyed<T>>) {
    forall i, j :: 0 <= i < j < |xs| ==> Less(xs[i].key, xs[j].key)
  }

  lemma {:induction false} LessTotal(a: Text, b: Text)
    ensures !(Less(a, b) && Less(b, a))
    ensures a != b ==> Less(a, b) || Less(b, a)
    ensures Less(a, b) ==> a != b
  {
    if a != [] && b != [] {
      LessTotal(a[1..], b[1..]);
      assert a == [a[0]] + a[1..] && b == [b[0]] + b[1..];
    }
  }

  lemma {:induction false} LessTransitive(a: Text, b: Text, c: Text)
    requires Less(a, b) && Less(b, c)
    ensures Less(a, c)
  {
    if a != [] && a[0] == b[0] && b[0] == c[0] { LessTransitive(a[1..], b[1..], c[1..]); }
  }

  lemma {:induction false} InsertMultiset<T>(x: Keyed<T>, xs: seq<Keyed<T>>)
    ensures multiset(Insert(x, xs)) == multiset(xs) + multiset{x}
  {
    if xs != [] && Less(xs[0].key, x.key) {
      InsertMultiset(x, xs[1..]);
      assert xs == [xs[0]] + xs[1..];
    }
  }

  lemma {:induction false} SortMultiset<T>(xs: seq<Keyed<T>>)
    ensures multiset(Sort(xs)) == multiset(xs) && |Sort(xs)| == |xs|
  {
    if xs != [] {
      SortMultiset(xs[1..]);
      InsertMultiset(xs[0], Sort(xs[1..]));
      assert xs == [xs[0]] + xs[1..];
    }
    assert |multiset(Sort(xs))| == |multiset(xs)|;
  }

  lemma {:induction false} InsertSorted<T>(x: Keyed<T>, xs: seq<Keyed<T>>)
    requires Sorted(xs) && forall i :: 0 <= i < |xs| ==> xs[i].key != x.key
    ensures Sorted(Insert(x, xs))
  {
    if xs == [] {
    } else if Less(xs[0].key, x.key) {
      InsertSorted(x, xs[1..]);
      InsertMultiset(x, xs[1..]);
      var r := Insert(x, xs[1..]);
      forall j | 0 <= j < |r| ensures Less(xs[0].key, r[j].key) {
        assert r[j] in multiset(r);
        assert r[j] == x || r[j] in xs[1..];
      }
      PrependSorted(xs[0], r);
    } else {
      LessTotal(xs[0].key, x.key);
      forall j | 0 <= j < |xs| ensures Less(x.key, xs[j].key) {
        if j > 0 { LessTransitive(x.key, xs[0].key, xs[j].key); }
      }
      PrependSorted(x, xs);
    }
  }

  lemma PrependSorted<T>(h: Keyed<T>, r: seq<Keyed<T>>)
    requires Sorted(r) && forall j :: 0 <= j < |r| ==> Less(h.key, r[j].key)
    ensures Sorted([h] + r)
  {
  }

  lemma {:induction false} SortSorts<T>(xs: seq<Keyed<T>>)
    requires DistinctKeys(xs)
    ensures Sorted(Sort(xs))
  {
    if xs != [] {
      SortSorts(xs[1..]);
      SortMultiset(xs[1..]);
      var s := Sort(xs[1..]);
      forall i | 0 <= i < |s| ensures s[i].key != xs[0].key {
        assert s[i] in multiset(s);
        assert s[i] in xs[1..];
      }
      InsertSorted(xs[0], s);
      assert xs == [xs[0]] + xs[1..];
    }
  }

  lemma SortedHead<T>(xs: seq<Keyed<T>>, ys: seq<Keyed<T>>)
    requires Sorted(xs) && Sorted(ys) && xs != [] && ys != [] && xs[0] in ys && ys[0] in xs
    ensures xs[0] == ys[0]
  {
    var j :| 0 <= j < |ys| && ys[j] == xs[0];
    var i :| 0 <= i < |xs| && xs[i] == ys[0];
    LessTotal(xs[0].key, ys[0].key);
  }

  /** A sorted list is determined by its elements. */
  lemma {:induction false} SortedUnique<T>(xs: seq<Keyed<T>>, ys: seq<Keyed<T>>)
    requires Sorted(xs) && Sorted(ys) && multiset(xs) == multiset(ys)
    ensures xs == ys
  {
    assert |xs| == |multiset(xs)| == |multiset(ys)| == |ys|;
    if xs != [] {
      var x := xs[0];
      assert x in multiset(ys) && ys[0] in multiset(xs);
      SortedHead(xs, ys);
      TailMultiset(xs);
      TailMultiset(ys);
      SortedUnique(xs[1..], ys[1..]);
    }
  }

  lemma TailMultiset<T>(xs: seq<T>)
    requires xs != []
    ensures xs == [xs[0]] + xs[1..] && multiset(xs[1..]) == multiset(xs) - multiset{xs[0]}
  {
    assert xs == [xs[0]] + xs[1..];
  }

  // ----- The canonical printer prints the canonical form -----

  lemma {:induction false} InsertCommutes(x: Keyed<Json>, xs: seq<Keyed<Json>>)
    ensures PrintFields(Insert(x, xs)) == Insert(Keyed(x.key, Quote(x.key) + [COLON] + Stringify(x.val)),
            PrintFields(xs))
  {
    if xs != [] && Less(xs[0].key, x.key) {
      InsertCommutes(x, xs[1..]);
      assert Insert(x, xs)[1..] == Insert(x, xs[1..]);
      assert PrintFields(xs)[1..] == PrintFields(xs[1..]);
    } else {
      assert ([x] + xs)[1..] == xs;
    }
  }

  lemma {:induction false} SortCommutes(xs: seq<Keyed<Json>>)
    ensures PrintFields(Sort(xs)) == Sort(PrintFields(xs))
  {
    if xs != [] {
      SortCommutes(xs[1..]);
      InsertCommutes(xs[0], Sort(xs[1..]));
      assert PrintFields(xs)[1..] == PrintFields(xs[1..]);
    }
  }

  lemma {:induction false} StableIsCanonical(v: Json)
    ensures StableStringify(v) == Stringify(Canon(v))
    decreases v, 1
  {
    match v
    case Arr(items) => StableItemsAreCanonical(items);
    case Obj(fields) =>
      StableFieldsAreCanonical(fields);
      SortCommutes(CanonFields(fields));
    case _ =>
  }

  lemma {:induction false} StableItemsAreCanonical(items: seq<Json>)
    ensures StableItems(items) == PrintItems(CanonItems(items))
    decreases items, 0
  {
    if items != [] {
      StableIsCanonical(items[0]);
      StableItemsAreCanonical(items[1..]);
      assert CanonItems(items)[1..] == CanonItems(items[1..]);
    }
  }

  lemma {:induction false} StableFieldsAreCanonical(fields: seq<Keyed<Json>>)
    ensures StableFields(fields) == PrintFields(CanonFields(fields))
    decreases fields, 0
  {
    if fields != [] {
      StableIsCanonical(fields[0].val);
      StableFieldsAreCanonical(fields[1..]);
      assert CanonFields(fields)[1..] == CanonFields(fields[1..]);
    }
  }

  lemma {:induction false} CanonItemsAt(items: seq<Json>)
    ensures forall i :: 0 <= i < |items| ==> CanonItems(items)[i] == Canon(items[i])
  {
    if items != [] { CanonItemsAt(items[1..]); }
  }

  lemma {:induction false} CanonFieldsAt(fields: seq<Keyed<Json>>)
    ensures forall i :: 0 <= i < |fields| ==> CanonFields(fields)[i] == Keyed(fields[i].key, Canon(fields[i].val))
  {
    if fields != [] { CanonFieldsAt(fields[1..]); }
  }

  lemma {:induction false} CanonKeepsPlain(v: Json)
    requires Plain(v)
    ensures Plain(Canon(v))
  {
    match v
    case Arr(items) =>
      CanonItemsAt(items);
      forall i | 0 <= i < |items| ensures Plain(Canon(items[i])) { CanonKeepsPlain(items[i]); }
    case Obj(fields) =>
      var fs := CanonFields(fields);
      CanonFieldsAt(fields);
      forall i | 0 <= i < |fields| ensures Plain(fs[i].val) { CanonKeepsPlain(fields[i].val); }
      SortMultiset(fs);
      forall i | 0 <= i < |Sort(fs)| ensures Plain(Sort(fs)[i].val) {
        assert Sort(fs)[i] in multiset(Sort(fs));
        assert Sort(fs)[i] in fs;
      }
    case _ =>
  }

  /** The parser applied to canonical text returns the value, its keys sorted, and consumes everything. */
  lemma ParseStable(v: Json)
    requires Plain(v)
    ensures Parse(StableStringify(v)) == Some(Canon(v))
  {
    StableIsCanonical(v);
    CanonKeepsPlain(v);
    ParseStringify(Canon(v));
  }

  // ----- Same up to key order -----

  lemma {:induction false} DistinctMultiplicity<T>(xs: seq<Keyed<T>>, x: Keyed<T>)
    requires DistinctKeys(xs)
    ensures multiset(xs)[x] <= 1
  {
    if xs != [] {
      DistinctMultiplicity(xs[1..], x);
      assert xs == [xs[0]] + xs[1..];
      if x == xs[0] { assert x !in xs[1..]; }
    }
  }

  /** Equally long, distinct keys, one contained in the other: the same elements. */
  lemma ContainedIsEqual<T>(xs: seq<Keyed<T>>, ys: seq<Keyed<T>>)
    requires |xs| == |ys| && DistinctKeys(xs) && forall x :: x in xs ==> x in ys
    ensures multiset(xs) == multiset(ys)
  {
    forall x ensures multiset(xs)[x] <= multiset(ys)[x] {
      DistinctMultiplicity(xs, x);
      if x in xs { assert x in ys; }
    }
    assert multiset(xs) <= multiset(ys);
    var d := multiset(ys) - multiset(xs);
    assert multiset(ys) == multiset(xs) + d;
    assert |d| == 0;
    assert d == multiset{};
  }

  lemma {:induction false} SameIffCanon(v: Json, w: Json)
    requires Proper(v) && Proper(w)
    ensures Same(v, w) <==> Canon(v) == Canon(w)
    decreases v, 1
  {
    if v.Arr? && w.Arr? {
      CanonItemsAt(v.items);
      CanonItemsAt(w.items);
      forall i | 0 <= i < |v.items| && i < |w.items|
        ensures Same(v.items[i], w.items[i]) <==> Canon(v.items[i]) == Canon(w.items[i])
      {
        SameIffCanon(v.items[i], w.items[i]);
      }
      if Canon(v) == Canon(w) {
        assert CanonItems(v.items) == CanonItems(w.items);
        forall i | 0 <= i < |v.items| ensures Same(v.items[i], w.items[i]) {
          assert CanonItems(v.items)[i] == CanonItems(w.items)[i];
        }
      }
    } else if v.Obj? && w.Obj? {
      SameObjects(v.fields, w.fields);
    }
  }

  lemma SortEqualIffContained<T>(F: seq<Keyed<T>>, G: seq<Keyed<T>>)
    requires DistinctKeys(F) && DistinctKeys(G) && |F| == |G|
    ensures Sort(F) == Sort(G) <==> forall x :: x in F ==> x in G
  {
    SortMultiset(F);
    SortMultiset(G);
    if Sort(F) == Sort(G) {
      forall x | x in F ensures x in G { assert x in multiset(G); }
    }
    if forall x :: x in F ==> x in G {
      ContainedIsEqual(F, G);
      SortSorts(F);
      SortSorts(G);
      SortedUnique(Sort(F), Sort(G));
    }
  }

  lemma {:induction false} SameObjects(f: seq<Keyed<Json>>, g: seq<Keyed<Json>>)
    requires Proper(Obj(f)) && Proper(Obj(g))
    ensures Same(Obj(f), Obj(g)) <==> Canon(Obj(f)) == Canon(Obj(g))
    decreases f, 1
  {
    var F, G := CanonFields(f), CanonFields(g);
    CanonFieldsAt(f);
    CanonFieldsAt(g);
    SortMultiset(F);
    SortMultiset(G);
    ContainedIffSame(f, g);
    if |f| == |g| {
      SortEqualIffContained(F, G);
    }
  }

  lemma {:induction false} ContainedIffSame(f: seq<Keyed<Json>>, g: seq<Keyed<Json>>)
    requires Proper(Obj(f)) && Proper(Obj(g))
    ensures (forall i :: 0 <= i < |f| ==> HasSame(f[i], g)) <==>
            (forall x :: x in CanonFields(f) ==> x in CanonFields(g))
    decreases f, 0
  {
    CanonFieldsAt(f);
    forall i | 0 <= i < |f| ensures HasSame(f[i], g) <==> CanonFields(f)[i] in CanonFields(g) {
      SameEntry(f[i], g);
    }
  }

  lemma {:induction false} SameEntry(x: Keyed<Json>, g: seq<Keyed<Json>>)
    requires Proper(x.val) && Proper(Obj(g))
    ensures HasSame(x, g) <==> Keyed(x.key, Canon(x.val)) in CanonFields(g)
    decreases x, 0
  {
    CanonFieldsAt(g);
    forall j | 0 <= j < |g| ensures Same(x.val, g[j].val) <==> Canon(x.val) == Canon(g[j].val) {
      SameIffCanon(x.val, g[j].val);
    }
    var y := Keyed(x.key, Canon(x.val));
    if y in CanonFields(g) {
      var j :| 0 <= j < |g| && CanonFields(g)[j] == y;
      assert g[j].key == x.key && Same(x.val, g[j].val);
    }
    if HasSame(x, g) {
      var j :| 0 <= j < |g| && g[j].key == x.key && Same(x.val, g[j].val);
      assert CanonFields(g)[j] == y;
    }
  }

  /** Two values print alike exactly when they are equal up to key insertion order at every depth. */
  lemma StableEqualIffSame(v: Json, w: Json)
    requires Plain(v) && Proper(v) && Plain(w) && Proper(w)
    ensures StableStringify(v) == StableStringify(w) <==> Same(v, w)
  {
    SameIffCanon(v, w);
    ParseStable(v);
    ParseStable(w);
    StableIsCanonical(v);
    StableIsCanonical(w);
  }

  /** Parsing what the canonical printer wrote gives back the value itself, up to key order. */
  lemma ParseStableIsSame(v: Json)
    requires Plain(v) && Proper(v)
    ensures Parse(StableStringify(v)).Some? && Same(Parse(StableStringify(v)).value, v)
    ensures StableStringify(Parse(StableStringify(v)).value) == StableStringify(v)
  {
    ParseStable(v);
    CanonProper(v);
    CanonTwice(v);
    SameIffCanon(Canon(v), v);
    StableIsCanonical(v);
    StableIsCanonical(Canon(v));
  }

  lemma SortKeepsDistinct<T>(xs: seq<Keyed<T>>)
    requires DistinctKeys(xs)
    ensures DistinctKeys(Sort(xs))
  {
    SortSorts(xs);
    forall i, j | 0 <= i < j < |Sort(xs)| ensures Sort(xs)[i].key != Sort(xs)[j].key {
      LessTotal(Sort(xs)[i].key, Sort(xs)[j].key);
    }
  }

  lemma {:induction false} CanonProper(v: Json)
    requires Proper(v)
    ensures Proper(Canon(v))
  {
    match v
    case Arr(items) =>
      CanonItemsAt(items);
      forall i | 0 <= i < |items| ensures Proper(Canon(items[i])) { CanonProper(items[i]); }
    case Obj(fields) =>
      var fs := CanonFields(fields);
      CanonFieldsAt(fields);
      forall i | 0 <= i < |fields| ensures Proper(fs[i].val) { CanonProper(fields[i].val); }
      SortMultiset(fs);
      SortKeepsDistinct(fs);
      forall i | 0 <= i < |Sort(fs)| ensures Proper(Sort(fs)[i].val) {
        assert Sort(fs)[i] in multiset(Sort(fs));
        assert Sort(fs)[i] in fs;
      }
    case _ =>
  }

  /** Canonical form is a normal form. */
  lemma {:induction false} CanonTwice(v: Json)
    requires Proper(v)
    ensures Canon(Canon(v)) == Canon(v)
  {
    match v
    case Arr(items) =>
      CanonItemsAt(items);
      CanonItemsAt(CanonItems(items));
      forall i | 0 <= i < |items| ensures Canon(Canon(items[i])) == Canon(items[i]) { CanonTwice(items[i]); }
      assert CanonItems(CanonItems(items)) == CanonItems(items);
    case Obj(fields) =>
      var fs := CanonFields(fields);
      var s := Sort(fs);
      CanonFieldsAt(fields);
      CanonFieldsAt(s);
      SortSorts(fs);
      SortMultiset(fs);
      forall i | 0 <= i < |fields| ensures Canon(fs[i].val) == fs[i].val { CanonTwice(fields[i].val); }
      forall i | 0 <= i < |s| ensures CanonFields(s)[i] == s[i] {
        assert s[i] in multiset(s);
        assert s[i] in fs;
      }
      assert CanonFields(s) == s;
      SortKeepsDistinct(fs);
      SortSorts(s);
      SortMultiset(s);
      SortedUnique(Sort(s), s);
    case _ =>
  }
}
