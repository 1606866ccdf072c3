/**
 Choosing one hotel per price bucket, as the JavaScript and the Python planner do it, in exact arithmetic.
 */
module Hotels {
  import opened Wrappers

  datatype Price = Absent | Number(amount: real) | Text(text: string)

  datatype Listing = Listing(name: string, price: Price, rating: Option<real>)

  datatype Hotel = Hotel(name: string, price: real, rating: Option<real>)

  function Score(rating: Option<real>): real { if rating.Some? then rating.value else 0.0 }

  function Rate(h: Hotel): real { Score(h.rating) }

  /** A listing whose price was read; None where the text does not start with a number for `parseFloat`, which then
   answers NaN, or is not a number for Python's `float`, which then raises an error. */
  datatype Quote = Quote(name: string, price: Option<real>, rating: Option<real>)

  /** How a program reads a price text once the currency sign and the commas are gone. */
  type Reader = string -> Option<real>

  function Quoted(parse: Reader, h: Listing): seq<Quote> {
    match h.price
    case Absent => []
    case Number(amount) => [Quote(h.name, Some(amount), h.rating)]
    case Text(text) => [Quote(h.name, parse(text), h.rating)]
  }

  /** The listings that carry a price, in order. */
  function Quotes(parse: Reader, listings: seq<Listing>): seq<Quote>
    decreases |listings|
  {
    if listings == [] then []
    else Quotes(parse, listings[..|listings| - 1]) + Quoted(parse, listings[|listings| - 1])
  }

  predicate Readable(quotes: seq<Quote>) { forall i | 0 <= i < |quotes| :: quotes[i].price.Some? }

  function Numbers(quotes: seq<Quote>): (hs: seq<Hotel>)
    requires Readable(quotes)
    ensures |hs| == |quotes|
    ensures forall i | 0 <= i < |quotes| :: hs[i] == Hotel(quotes[i].name, quotes[i].price.value, quotes[i].rating)
  {
    seq(|quotes|, i requires 0 <= i < |quotes| => Hotel(quotes[i].name, quotes[i].price.value, quotes[i].rating))
  }

  function AsQuotes(hs: seq<Hotel>): (quotes: seq<Quote>)
    ensures Readable(quotes) && Numbers(quotes) == hs
  {
    seq(|hs|, i requires 0 <= i < |hs| => Quote(hs[i].name, Some(hs[i].price), hs[i].rating))
  }

  predicate ReadAlike(a: Reader, b: Reader, listings: seq<Listing>) {
    forall h | h in listings :: h.price.Text? ==> a(h.price.text) == b(h.price.text)
  }

  lemma {:induction false} ReadAlikeQuotesAlike(a: Reader, b: Reader, listings: seq<Listing>)
    requires ReadAlike(a, b, listings)
    ensures Quotes(a, listings) == Quotes(b, listings)
    decreases |listings|
  {
    if listings != [] {
      ReadAlikeQuotesAlike(a, b, listings[..|listings| - 1]);
      assert listings[|listings| - 1] in listings;
    }
  }

  function MinPrice(hs: seq<Hotel>): (m: real)
    requires hs != []
    ensures forall h | h in hs :: m <= h.price
    ensures exists h | h in hs :: h.price == m
  {
    var n := |hs| - 1;
    if n == 0 then assert hs[0] in hs; hs[0].price
    else
      var m := MinPrice(hs[..n]);
      assert forall h | h in hs :: h in hs[..n] || h == hs[n];
      if hs[n].price < m then hs[n].price else m
  }

  function MaxPrice(hs: seq<Hotel>): (m: real)
    requires hs != []
    ensures forall h | h in hs :: h.price <= m
    ensures exists h | h in hs :: h.price == m
  {
    var n := |hs| - 1;
    if n == 0 then assert hs[0] in hs; hs[0].price
    else
      var m := MaxPrice(hs[..n]);
      assert forall h | h in hs :: h in hs[..n] || h == hs[n];
      if hs[n].price > m then hs[n].price else m
  }

  // ----- What a selection is -----

  /** The bucket of a price, counted from the cheapest; all share one when all prices are equal. */
  function Bucket(hs: seq<Hotel>, buckets: nat, price: real): int
    requires hs != [] && buckets > 0
  {
    var low, high := MinPrice(hs), MaxPrice(hs);
    if high <= low then 0
    else
      var k := ((price - low) / ((high - low) / buckets as real)).Floor;
      if k < buckets - 1 then k else buckets - 1
  }

  function BucketOf(hs: seq<Hotel>, buckets: nat): real -> int
    requires hs != [] && buckets > 0
  {
    price => Bucket(hs, buckets, price)
  }

  predicate Together(key: real -> int, a: Hotel, b: Hotel) { key(a.price) == key(b.price) }

  /** The `k`-th hotel is the first of those rated highest in its bucket. */
  predicate FirstBest(hs: seq<Hotel>, key: real -> int, k: nat) {
    k < |hs| && forall m | 0 <= m < |hs| && Together(key, hs[m], hs[k]) ::
      Rate(hs[m]) <= Rate(hs[k]) && (m < k ==> Rate(hs[m]) < Rate(hs[k]))
  }

  predicate Increasing(r: seq<Hotel>) { forall i, j :: 0 <= i < j < |r| ==> r[i].price < r[j].price }

  ghost predicate Chosen(hs: seq<Hotel>, key: real -> int, h: Hotel) {
    exists k: nat :: FirstBest(hs, key, k) && hs[k] == h
  }

  ghost predicate Covered(key: real -> int, r: seq<Hotel>, h: Hotel) { exists c | c in r :: Together(key, c, h) }

  /** Increasing prices, every entry the first best of its bucket, every hotel's bucket represented. */
  ghost predicate Selects(hs: seq<Hotel>, key: real -> int, r: seq<Hotel>) {
    Increasing(r) && (forall h | h in r :: Chosen(hs, key, h)) && (forall h | h in hs :: Covered(key, r, h))
  }

  ghost predicate IsSelection(hs: seq<Hotel>, buckets: nat, r: seq<Hotel>)
    requires buckets > 0
  {
    if hs == [] then r == [] else Selects(hs, BucketOf(hs, buckets), r)
  }

  // ----- A selection is unique -----

  lemma {:induction false} OneChosenPerBucket(hs: seq<Hotel>, key: real -> int, a: Hotel, b: Hotel)
    requires Chosen(hs, key, a) && Chosen(hs, key, b) && Together(key, a, b)
    ensures a == b
  {
    var j: nat :| FirstBest(hs, key, j) && hs[j] == a;
    var k: nat :| FirstBest(hs, key, k) && hs[k] == b;
    assert Rate(hs[j]) <= Rate(hs[k]) && Rate(hs[k]) <= Rate(hs[j]);
  }

  /** A selection has exactly one entry for each bucket that is not empty. */
  lemma {:induction false} OneEntryPerBucket(hs: seq<Hotel>, key: real -> int, r: seq<Hotel>)
    requires Selects(hs, key, r)
    ensures forall i, j | 0 <= i < |r| && 0 <= j < |r| && Together(key, r[i], r[j]) :: i == j
    ensures forall h | h in hs :: exists i | 0 <= i < |r| :: Together(key, r[i], h)
  {
    forall i, j | 0 <= i < |r| && 0 <= j < |r| && Together(key, r[i], r[j])
      ensures i == j
    {
      OneChosenPerBucket(hs, key, r[i], r[j]);
    }
    forall h | h in hs
      ensures exists i | 0 <= i < |r| :: Together(key, r[i], h)
    {
      assert Covered(key, r, h);
    }
  }

  lemma {:induction false} OneBucketSelectsOne(hs: seq<Hotel>, key: real -> int, r: seq<Hotel>)
    requires hs != [] && Selects(hs, key, r) && forall p, q :: key(p) == key(q)
    ensures |r| == 1 && forall h | h in hs :: Rate(h) <= Rate(r[0])
  {
    OneEntryPerBucket(hs, key, r);
    assert hs[0] in hs && Covered(key, r, hs[0]);
    assert |r| >= 1;
    assert |r| > 1 ==> Together(key, r[1], r[0]);
    assert r[0] in r && Chosen(hs, key, r[0]);
    var k: nat :| FirstBest(hs, key, k) && hs[k] == r[0];
    forall h | h in hs
      ensures Rate(h) <= Rate(r[0])
    {
      assert Together(key, h, hs[k]);
    }
  }

  lemma EqualPricesShareBucket(hs: seq<Hotel>, buckets: nat, p: real)
    requires hs != [] && buckets > 0 && MinPrice(hs) == MaxPrice(hs)
    ensures BucketOf(hs, buckets)(p) == 0
  {
  }

  /** When all prices are equal the selection is a single hotel, of the highest rating. */
  lemma {:induction false} EqualPricesSelectOne(hs: seq<Hotel>, buckets: nat, r: seq<Hotel>)
    requires hs != [] && buckets > 0 && IsSelection(hs, buckets, r) && MinPrice(hs) == MaxPrice(hs)
    ensures |r| == 1 && forall h | h in hs :: Rate(h) <= Rate(r[0])
  {
    forall p
      ensures BucketOf(hs, buckets)(p) == 0
    {
      EqualPricesShareBucket(hs, buckets, p);
    }
    OneBucketSelectsOne(hs, BucketOf(hs, buckets), r);
  }

  lemma {:induction false} SelectionsShareEntries(hs: seq<Hotel>, key: real -> int, r: seq<Hotel>, s: seq<Hotel>,
      h: Hotel)
    requires Selects(hs, key, r) && Selects(hs, key, s) && h in r
    ensures h in s
  {
    assert Chosen(hs, key, h);
    assert Covered(key, s, h);
    var c :| c in s && Together(key, c, h);
    OneChosenPerBucket(hs, key, c, h);
  }

  lemma {:induction false} LastEntriesAgree(r: seq<Hotel>, s: seq<Hotel>)
    requires Increasing(r) && Increasing(s) && (forall h :: h in r <==> h in s) && r != []
    ensures s != [] && r[|r| - 1] == s[|s| - 1]
  {
    var m, n := |r| - 1, |s| - 1;
    assert r[m] in s;
    var i :| 0 <= i < |s| && s[i] == r[m];
    assert s[n] in r;
    var j :| 0 <= j < |r| && r[j] == s[n];
  }

  lemma {:induction false} IncreasingIsDetermined(r: seq<Hotel>, s: seq<Hotel>)
    requires Increasing(r) && Increasing(s) && (forall h :: h in r <==> h in s)
    ensures r == s
    decreases |r|
  {
    assert |s| > 0 ==> s[0] in s;
    if r != [] {
      var m, n := |r| - 1, |s| - 1;
      LastEntriesAgree(r, s);
      forall h
        ensures h in r[..m] <==> h in s[..n]
      {
        PrefixEntries(r, h);
        PrefixEntries(s, h);
      }
      IncreasingIsDetermined(r[..m], s[..n]);
      assert r == r[..m] + [r[m]] && s == s[..n] + [s[n]];
    }
  }

  lemma {:induction false} PrefixEntries(r: seq<Hotel>, h: Hotel)
    requires r != [] && Increasing(r)
    ensures h in r[..|r| - 1] <==> h in r && h != r[|r| - 1]
  {
    var m := |r| - 1;
    if h in r[..m] {
      var i :| 0 <= i < m && r[..m][i] == h;
      assert r[i] == h;
    }
  }

  /** Whatever computes a selection computes this one. */
  lemma {:induction false} SelectionIsUnique(hs: seq<Hotel>, buckets: nat, r: seq<Hotel>, s: seq<Hotel>)
    requires buckets > 0 && IsSelection(hs, buckets, r) && IsSelection(hs, buckets, s)
    ensures r == s
  {
    if hs != [] {
      forall h
        ensures h in r <==> h in s
      {
        if h in r { SelectionsShareEntries(hs, BucketOf(hs, buckets), r, s, h); }
        if h in s { SelectionsShareEntries(hs, BucketOf(hs, buckets), s, r, h); }
      }
      IncreasingIsDetermined(r, s);
    }
  }

  // ----- Sorting by price -----

  function Insert(sorted: seq<Hotel>, h: Hotel): seq<Hotel>
    decreases |sorted|
  {
    if sorted == [] then [h]
    else if h.price < sorted[0].price then [h] + sorted
    else [sorted[0]] + Insert(sorted[1..], h)
  }

  /** The stable sort by price. */
  function SortByPrice(hs: seq<Hotel>): seq<Hotel> {
    if hs == [] then [] else Insert(SortByPrice(hs[..|hs| - 1]), hs[|hs| - 1])
  }

  lemma {:induction false} InsertKeepsIncreasing(sorted: seq<Hotel>, h: Hotel)
    requires Increasing(sorted) && forall x | x in sorted :: x.price != h.price
    ensures Increasing(Insert(sorted, h))
    ensures forall x :: x in Insert(sorted, h) <==> x in sorted || x == h
    decreases |sorted|
  {
    if sorted != [] && h.price >= sorted[0].price {
      var rest := sorted[1..];
      assert forall k | 0 <= k < |rest| :: rest[k] == sorted[k + 1];
      assert forall x | x in rest :: x in sorted;
      InsertKeepsIncreasing(rest, h);
      assert forall x :: x in sorted <==> x == sorted[0] || x in rest;
      assert sorted[0] in sorted;
      forall x | x in Insert(rest, h)
        ensures sorted[0].price < x.price
      {
        if x in rest {
          var k :| 0 <= k < |rest| && rest[k] == x;
        }
      }
    } else if sorted != [] {
      assert forall k | 0 <= k < |sorted| :: h.price < sorted[k].price;
    }
  }

  predicate DistinctPrices(hs: seq<Hotel>) { forall i, j :: 0 <= i < j < |hs| ==> hs[i].price != hs[j].price }

  lemma {:induction false} SortIncreases(hs: seq<Hotel>)
    requires DistinctPrices(hs)
    ensures Increasing(SortByPrice(hs)) && forall x :: x in SortByPrice(hs) <==> x in hs
    decreases |hs|
  {
    if hs != [] {
      var n := |hs| - 1;
      SortIncreases(hs[..n]);
      assert forall x :: x in hs <==> x in hs[..n] || x == hs[n];
      InsertKeepsIncreasing(SortByPrice(hs[..n]), hs[n]);
    }
  }

  // ----- Filling the buckets -----

  /** Hotel `k` is the first best of bucket `b` among the first `i` hotels. */
  predicate BestSoFar(hs: seq<Hotel>, key: real -> int, i: nat, b: int, k: nat)
    requires i <= |hs|
  {
    k < i && key(hs[k].price) == b && forall m | 0 <= m < i && key(hs[m].price) == b ::
      Rate(hs[m]) <= Rate(hs[k]) && (m < k ==> Rate(hs[m]) < Rate(hs[k]))
  }

  /** Of the first `i` hotels, each bucket met so far holds the first best; `at` says where. */
  ghost predicate Filled(hs: seq<Hotel>, key: real -> int, i: nat, held: map<int, Hotel>, at: map<int, nat>)
    requires i <= |hs|
  {
    && held.Keys == at.Keys
    && (forall k | 0 <= k < i :: key(hs[k].price) in held)
    && (forall b | b in held :: BestSoFar(hs, key, i, b, at[b]) && held[b] == hs[at[b]])
  }

  /** `values` lists the held hotels in the order of buckets `order`. */
  ghost predicate Lists(held: map<int, Hotel>, order: seq<int>, values: seq<Hotel>) {
    && (forall i, j :: 0 <= i < j < |order| ==> order[i] != order[j])
    && (forall b :: b in order <==> b in held)
    && |values| == |order| && forall i | 0 <= i < |order| :: order[i] in held && values[i] == held[order[i]]
  }

  lemma {:induction false} ListedPricesDiffer(
    hs: seq<Hotel>, key: real -> int, held: map<int, Hotel>, at: map<int, nat>, order: seq<int>, values: seq<Hotel>)
    requires Filled(hs, key, |hs|, held, at) && Lists(held, order, values)
    ensures DistinctPrices(values)
  {
    forall i, j | 0 <= i < j < |values|
      ensures values[i].price != values[j].price
    {
      assert BestSoFar(hs, key, |hs|, order[i], at[order[i]]) && BestSoFar(hs, key, |hs|, order[j], at[order[j]]);
    }
  }

  lemma {:induction false} ListedIsChosen(
    hs: seq<Hotel>, key: real -> int, held: map<int, Hotel>, at: map<int, nat>, order: seq<int>, values: seq<Hotel>,
      h: Hotel)
    requires Filled(hs, key, |hs|, held, at) && Lists(held, order, values) && h in values
    ensures Chosen(hs, key, h)
  {
    var i :| 0 <= i < |values| && values[i] == h;
    assert BestSoFar(hs, key, |hs|, order[i], at[order[i]]);
    assert FirstBest(hs, key, at[order[i]]);
  }

  lemma {:induction false} ListedCovers(
    hs: seq<Hotel>, key: real -> int, held: map<int, Hotel>, at: map<int, nat>, order: seq<int>, values: seq<Hotel>,
      h: Hotel)
    requires Filled(hs, key, |hs|, held, at) && Lists(held, order, values) && h in hs
    ensures Covered(key, values, h)
  {
    var k :| 0 <= k < |hs| && hs[k] == h;
    var b := key(h.price);
    assert b in held && b in order;
    var i :| 0 <= i < |order| && order[i] == b;
    assert BestSoFar(hs, key, |hs|, b, at[b]);
    assert values[i] in values && Together(key, values[i], h);
  }

  /** Listing the held hotels in any order of the buckets and sorting them by price gives the selection. */
  lemma {:induction false} SortedBucketsAreSelection(
    hs: seq<Hotel>, key: real -> int, held: map<int, Hotel>, at: map<int, nat>, order: seq<int>, values: seq<Hotel>)
    requires Filled(hs, key, |hs|, held, at) && Lists(held, order, values)
    ensures Selects(hs, key, SortByPrice(values))
  {
    ListedPricesDiffer(hs, key, held, at, order, values);
    SortIncreases(values);
    var r := SortByPrice(values);
    forall h | h in r
      ensures Chosen(hs, key, h)
    {
      ListedIsChosen(hs, key, held, at, order, values, h);
    }
    forall h | h in hs
      ensures Covered(key, r, h)
    {
      ListedCovers(hs, key, held, at, order, values, h);
      var c :| c in values && Together(key, c, h);
      assert c in r;
    }
  }
}
