/**
 The two programs that choose hotels, loop by loop, and their agreement on every input.
 */
module HotelPlanners {
  import opened Wrappers
  import opened Hotels

  /** The first loop of the JavaScript program. */
  method CollectInJavaScript(parse: Reader, listings: seq<Listing>) returns (priced: seq<Quote>)
    ensures priced == Quotes(parse, listings)
  {
    priced := [];
    for i := 0 to |listings|
      invariant priced == Quotes(parse, listings[..i])
    {
      assert listings[..i + 1][..i] == listings[..i];
      var h := listings[i];
      match h.price {
        case Absent =>
        case Number(amount) => priced := priced + [Quote(h.name, Some(amount), h.rating)];
        case Text(text) => priced := priced + [Quote(h.name, parse(text), h.rating)];
      }
    }
    assert listings[..|listings|] == listings;
  }

  datatype PriceError = VALUE_ERROR

  method ReadPrice(parse: Reader, h: Listing) returns (one: Result<seq<Hotel>, PriceError>)
    ensures one == if Readable(Quoted(parse, h)) then Ok(Numbers(Quoted(parse, h))) else Err(VALUE_ERROR)
  {
    match h.price {
      case Absent => return Ok([]);
      case Number(amount) =>
        assert Numbers(Quoted(parse, h)) == [Hotel(h.name, amount, h.rating)];
        return Ok([Hotel(h.name, amount, h.rating)]);
      case Text(text) =>
        var amount := parse(text);
        assert Quoted(parse, h)[0].price == amount;
        if amount.None? { return Err(VALUE_ERROR); }
        assert Numbers(Quoted(parse, h)) == [Hotel(h.name, amount.value, h.rating)];
        return Ok([Hotel(h.name, amount.value, h.rating)]);
    }
  }

  /** The first loop of the Python program, which stops at the first text that is no number. */
  method CollectInPython(parse: Reader, listings: seq<Listing>) returns (priced: Result<seq<Hotel>, PriceError>)
    ensures priced.Ok? <==> Readable(Quotes(parse, listings))
    ensures priced.Ok? ==> priced.value == Numbers(Quotes(parse, listings))
  {
    var hotels: seq<Hotel> := [];
    for i := 0 to |listings|
      invariant Readable(Quotes(parse, listings[..i])) && hotels == Numbers(Quotes(parse, listings[..i]))
    {
      NextQuote(parse, listings, i);
      var one := ReadPrice(parse, listings[i]);
      if one.Err? { return one; }
      hotels := hotels + one.value;
    }
    assert listings[..|listings|] == listings;
    return Ok(hotels);
  }

  /** One more listing adds its quote; one that cannot be read makes the whole list unreadable. */
  lemma {:induction false} NextQuote(parse: Reader, listings: seq<Listing>, i: nat)
    requires i < |listings|
    ensures var before, one, after := Quotes(parse, listings[..i]), Quoted(parse, listings[i]),
            Quotes(parse, listings[..i + 1]);
      && after == before + one
      && (Readable(before) && Readable(one) ==> Readable(after) && Numbers(after) == Numbers(before) + Numbers(one))
      && (!Readable(one) ==> !Readable(Quotes(parse, listings)))
  {
    var before, one, after := Quotes(parse, listings[..i]), Quoted(parse, listings[i]),
      Quotes(parse, listings[..i + 1]);
    assert listings[..i + 1][..i] == listings[..i];
    QuotesOfPrefix(parse, listings, i + 1);
    if !Readable(one) {
      assert after[|before|] == Quotes(parse, listings)[|before|];
    }
  }

  lemma {:induction false} QuotesOfPrefix(parse: Reader, listings: seq<Listing>, i: nat)
    requires i <= |listings|
    ensures Quotes(parse, listings[..i]) <= Quotes(parse, listings)
    decreases |listings| - i
  {
    if i < |listings| {
      assert listings[..i + 1][..i] == listings[..i];
      QuotesOfPrefix(parse, listings, i + 1);
    } else {
      assert listings[..i] == listings;
    }
  }

  predicate FirstHighest(scores: seq<real>, at: nat) {
    at < |scores| && forall m | 0 <= m < |scores| :: scores[m] <= scores[at] && (m < at ==> scores[m] < scores[at])
  }

  /** The first of the highest scores; `reduce` in one program, `max` in the other. */
  method FirstOfHighest(scores: seq<real>) returns (at: nat)
    requires scores != []
    ensures FirstHighest(scores, at)
  {
    at := 0;
    for i := 0 to |scores|
      invariant at < |scores| && at <= i
      invariant forall m | 0 <= m < i :: scores[m] <= scores[at] && (m < at ==> scores[m] < scores[at])
    {
      if scores[i] > scores[at] { at := i; }
    }
  }

  function Rates(hs: seq<Hotel>): seq<real> { seq(|hs|, i requires 0 <= i < |hs| => Rate(hs[i])) }

  function Scores(quotes: seq<Quote>): seq<real> {
    seq(|quotes|, i requires 0 <= i < |quotes| => Score(quotes[i].rating))
  }

  lemma {:induction false} SinglePriceSelection(hs: seq<Hotel>, buckets: nat, at: nat)
    requires hs != [] && buckets > 0 && MinPrice(hs) == MaxPrice(hs) && FirstHighest(Rates(hs), at)
    ensures IsSelection(hs, buckets, [hs[at]])
  {
    var key := BucketOf(hs, buckets);
    assert forall m | 0 <= m < |hs| :: Rates(hs)[m] == Rate(hs[m]);
    assert FirstBest(hs, key, at);
    forall h | h in hs
      ensures Covered(key, [hs[at]], h)
    {
      assert hs[at] in [hs[at]] && Together(key, hs[at], h);
    }
  }

  lemma QuotientIsPositive(x: real, y: real)
    requires x > 0.0 && y > 0.0
    ensures x / y > 0.0
  {
    assert (x / y) * y == x;
  }

  /** Python's `int` on a number. */
  function Truncated(x: real): int { if x >= 0.0 then x.Floor else -(-x).Floor }

  lemma {:induction false} FilledGrows(
    hs: seq<Hotel>, key: real -> int, i: nat, held: map<int, Hotel>, at: map<int, nat>, held': map<int, Hotel>,
      at': map<int, nat>)
    requires i < |hs| && Filled(hs, key, i, held, at)
    requires var b := key(hs[i].price);
      if b !in held || Rate(hs[i]) > Rate(held[b]) then held' == held[b := hs[i]] && at' == at[b := i]
        else held' == held && at' == at
    ensures Filled(hs, key, i + 1, held', at')
  {
    var own := key(hs[i].price);
    forall b | b in held'
      ensures BestSoFar(hs, key, i + 1, b, at'[b]) && held'[b] == hs[at'[b]]
    {
      if b in held { assert BestSoFar(hs, key, i, b, at[b]); }
      if b == own && own !in held {
        assert forall m | 0 <= m < i :: key(hs[m].price) != own;
      }
    }
  }

  function IndexInJavaScript(minPrice: real, bucketWidth: real, numBuckets: nat): real -> int
    requires bucketWidth != 0.0
  {
    price =>
      var k := ((price - minPrice) / bucketWidth).Floor;
      if k < numBuckets - 1 then k else numBuckets - 1
  }

  function IndexInPython(minPrice: real, bucketWidth: real, numBuckets: nat): real -> int
    requires bucketWidth != 0.0
  {
    price =>
      var k := Truncated((price - minPrice) / bucketWidth);
      if k < numBuckets - 1 then k else numBuckets - 1
  }

  lemma WidthIsPositive(hs: seq<Hotel>, numBuckets: nat)
    requires hs != [] && numBuckets > 0 && MinPrice(hs) < MaxPrice(hs)
    ensures (MaxPrice(hs) - MinPrice(hs)) / numBuckets as real > 0.0
  {
    QuotientIsPositive(MaxPrice(hs) - MinPrice(hs), numBuckets as real);
  }

  lemma FloorOfQuotient(x: real, w: real, k: int)
    requires w > 0.0
    ensures (x / w).Floor >= k <==> k as real * w <= x
  {
    var q := x / w;
    assert q * w == x;
    FloorIsAtLeast(q, k);
    Scales(q, k as real, w);
  }

  lemma FloorIsAtLeast(q: real, k: int)
    ensures q.Floor >= k <==> k as real <= q
  {
    var f := q.Floor;
    assert f as real <= q < f as real + 1.0;
  }

  lemma Scales(a: real, b: real, w: real)
    requires w > 0.0
    ensures a < b <==> a * w < b * w
  {
    if a < b { assert (b - a) * w > 0.0; } else { assert (a - b) * w >= 0.0; }
  }

  /** The buckets are intervals of equal width `w` from the lowest to the highest price, each without its upper end but
   the last, which has no upper end. */
  lemma {:induction false} BucketIsInterval(hs: seq<Hotel>, numBuckets: nat, w: real, price: real, k: nat)
    requires hs != [] && numBuckets > 0 && MinPrice(hs) < MaxPrice(hs) && k < numBuckets
    requires w == (MaxPrice(hs) - MinPrice(hs)) / numBuckets as real
    ensures Bucket(hs, numBuckets, price) == k <==>
      k as real * w <= price - MinPrice(hs) && (k < numBuckets - 1 ==> price - MinPrice(hs) < (k + 1) as real * w)
  {
    WidthIsPositive(hs, numBuckets);
    BucketByFloor(hs, numBuckets, w, price, ((price - MinPrice(hs)) / w).Floor);
    IntervalOfFloor(price - MinPrice(hs), w, k, numBuckets);
  }

  lemma BucketByFloor(hs: seq<Hotel>, numBuckets: nat, w: real, price: real, floor: int)
    requires hs != [] && numBuckets > 0 && MinPrice(hs) < MaxPrice(hs) && w != 0.0
    requires w == (MaxPrice(hs) - MinPrice(hs)) / numBuckets as real && floor == ((price - MinPrice(hs)) / w).Floor
    ensures Bucket(hs, numBuckets, price) == if floor < numBuckets - 1 then floor else numBuckets - 1
  {
  }

  lemma IntervalOfFloor(x: real, w: real, k: nat, n: nat)
    requires w > 0.0 && k < n
    ensures var floor := (x / w).Floor;
      (if floor < n - 1 then floor else n - 1) == k <==> k as real * w <= x && (k < n - 1 ==> x < (k + 1) as real * w)
  {
    FloorOfQuotient(x, w, k);
    FloorOfQuotient(x, w, k + 1);
  }

  /** Rounding towards minus infinity and rounding towards zero put a price in the same bucket. */
  lemma {:induction false} IndexIsBucket(hs: seq<Hotel>, numBuckets: nat, width: real, price: real)
    requires hs != [] && numBuckets > 0 && MinPrice(hs) < MaxPrice(hs) && MinPrice(hs) <= price
    requires width == (MaxPrice(hs) - MinPrice(hs)) / numBuckets as real && width > 0.0
    ensures 0 <= BucketOf(hs, numBuckets)(price) < numBuckets
    ensures IndexInJavaScript(MinPrice(hs), width, numBuckets)(price) == BucketOf(hs, numBuckets)(price)
    ensures IndexInPython(MinPrice(hs), width, numBuckets)(price) == BucketOf(hs, numBuckets)(price)
  {
    if price > MinPrice(hs) { QuotientIsPositive(price - MinPrice(hs), width); }
    assert (price - MinPrice(hs)) / width >= 0.0;
  }

  lemma {:induction false} FilledSameKey(hs: seq<Hotel>, key: real -> int, key': real -> int, held: map<int, Hotel>,
      at: map<int, nat>)
    requires Filled(hs, key, |hs|, held, at) && forall h | h in hs :: key(h.price) == key'(h.price)
    ensures Filled(hs, key', |hs|, held, at)
  {
    forall b | b in held
      ensures BestSoFar(hs, key', |hs|, b, at[b])
    {
      assert BestSoFar(hs, key, |hs|, b, at[b]);
    }
  }

  method FillInJavaScript(hs: seq<Hotel>, index: real -> int)
    returns (buckets: map<int, Hotel>, ghost at: map<int, nat>)
    ensures Filled(hs, index, |hs|, buckets, at)
    ensures forall b | b in buckets :: exists h | h in hs :: index(h.price) == b
  {
    buckets, at := map[], map[];
    for i := 0 to |hs|
      invariant Filled(hs, index, i, buckets, at)
    {
      var h := hs[i];
      var bucketIdx := index(h.price);
      ghost var held, heldAt := buckets, at;
      if bucketIdx !in buckets || Rate(h) > Rate(buckets[bucketIdx]) {
        buckets := buckets[bucketIdx := h];
        at := at[bucketIdx := i];
      }
      FilledGrows(hs, index, i, held, heldAt, buckets, at);
    }
    forall b | b in buckets
      ensures exists h | h in hs :: index(h.price) == b
    {
      assert BestSoFar(hs, index, |hs|, b, at[b]) && hs[at[b]] in hs;
    }
  }

  /** The values of an object with integer keys come in ascending order of the keys. */
  method ObjectValues(buckets: map<int, Hotel>, numBuckets: nat) returns (values: seq<Hotel>, ghost order: seq<int>)
    requires forall b | b in buckets :: 0 <= b < numBuckets
    ensures Lists(buckets, order, values)
  {
    values, order := [], [];
    for b := 0 to numBuckets
      invariant |values| == |order| && forall i | 0 <= i < |order| ::
        order[i] in buckets && values[i] == buckets[order[i]]
      invariant forall i, j :: 0 <= i < j < |order| ==> order[i] != order[j]
      invariant forall k :: k in order <==> k in buckets && 0 <= k < b
    {
      if b in buckets { values, order := values + [buckets[b]], order + [b]; }
    }
  }

  /** The bucket of each price, with the rounding of one program or of the other. */
  method BucketIndexes(hs: seq<Hotel>, numBuckets: nat, javaScript: bool) returns (index: real -> int)
    requires hs != [] && numBuckets > 0 && MinPrice(hs) != MaxPrice(hs)
    ensures forall h | h in hs ::
      index(h.price) == BucketOf(hs, numBuckets)(h.price) && 0 <= index(h.price) < numBuckets
  {
    assert hs[0] in hs;
    var minPrice, maxPrice := MinPrice(hs), MaxPrice(hs);
    WidthIsPositive(hs, numBuckets);
    var bucketWidth := (maxPrice - minPrice) / numBuckets as real;
    index := if javaScript then IndexInJavaScript(minPrice, bucketWidth, numBuckets)
      else IndexInPython(minPrice, bucketWidth, numBuckets);
    forall h | h in hs
      ensures index(h.price) == BucketOf(hs, numBuckets)(h.price) && 0 <= index(h.price) < numBuckets
    {
      IndexIsBucket(hs, numBuckets, bucketWidth, h.price);
    }
  }

  method SelectReadInJavaScript(hs: seq<Hotel>, numBuckets: nat) returns (selected: seq<Hotel>)
    requires numBuckets > 0 && hs != []
    ensures IsSelection(hs, numBuckets, selected)
  {
    if MinPrice(hs) == MaxPrice(hs) {
      var at := FirstOfHighest(Rates(hs));
      SinglePriceSelection(hs, numBuckets, at);
      return [hs[at]];
    }
    var index := BucketIndexes(hs, numBuckets, true);
    var buckets, at := FillInJavaScript(hs, index);
    FilledSameKey(hs, index, BucketOf(hs, numBuckets), buckets, at);
    var values, order := ObjectValues(buckets, numBuckets);
    SortedBucketsAreSelection(hs, BucketOf(hs, numBuckets), buckets, at, order, values);
    return SortByPrice(values);
  }

  /** The JavaScript program: buckets in an object. One price that is NaN makes the minimum, the width and every index
   NaN, so that all hotels share one bucket. */
  method SelectHotelsInJavaScript(parse: Reader, listings: seq<Listing>, numBuckets: nat) returns (selected: seq<Quote>)
    requires numBuckets > 0
    ensures var quotes := Quotes(parse, listings);
      if Readable(quotes) then Readable(selected) && IsSelection(Numbers(quotes), numBuckets, Numbers(selected))
      else exists at: nat :: FirstHighest(Scores(quotes), at) && selected == [quotes[at]]
  {
    var priced := CollectInJavaScript(parse, listings);
    if |priced| == 0 { return []; }
    if !Readable(priced) {
      var at := FirstOfHighest(Scores(priced));
      return [priced[at]];
    }
    var r := SelectReadInJavaScript(Numbers(priced), numBuckets);
    return AsQuotes(r);
  }

  /** A dictionary remembers the order in which its keys were first inserted. */
  method FillInPython(hs: seq<Hotel>, index: real -> int)
    returns (buckets: map<int, Hotel>, inserted: seq<int>, ghost at: map<int, nat>)
    ensures Filled(hs, index, |hs|, buckets, at)
    ensures forall b :: b in inserted <==> b in buckets
    ensures forall j, k :: 0 <= j < k < |inserted| ==> inserted[j] != inserted[k]
  {
    buckets, inserted, at := map[], [], map[];
    for i := 0 to |hs|
      invariant Filled(hs, index, i, buckets, at)
      invariant forall b :: b in inserted <==> b in buckets
      invariant forall j, k :: 0 <= j < k < |inserted| ==> inserted[j] != inserted[k]
    {
      var h := hs[i];
      var bucketIdx := index(h.price);
      ghost var held, heldAt := buckets, at;
      if bucketIdx !in buckets || Rate(h) > Rate(buckets[bucketIdx]) {
        if bucketIdx !in buckets { inserted := inserted + [bucketIdx]; }
        buckets := buckets[bucketIdx := h];
        at := at[bucketIdx := i];
      }
      FilledGrows(hs, index, i, held, heldAt, buckets, at);
    }
  }

  method DictionaryValues(buckets: map<int, Hotel>, inserted: seq<int>) returns (values: seq<Hotel>)
    requires forall b :: b in inserted ==> b in buckets
    ensures |values| == |inserted| && forall i | 0 <= i < |inserted| ::
      inserted[i] in buckets && values[i] == buckets[inserted[i]]
  {
    values := [];
    for i := 0 to |inserted|
      invariant |values| == i && forall j | 0 <= j < i :: inserted[j] in buckets && values[j] == buckets[inserted[j]]
    {
      var b := inserted[i];
      assert b in inserted;
      values := values + [buckets[b]];
    }
  }

  /** The Python program: buckets in a dictionary. It raises exactly when some price text is no number. */
  method SelectHotelsInPython(parse: Reader, listings: seq<Listing>, numBuckets: nat)
    returns (selected: Result<seq<Hotel>, PriceError>)
    requires numBuckets > 0
    ensures selected.Ok? <==> Readable(Quotes(parse, listings))
    ensures selected.Ok? ==> IsSelection(Numbers(Quotes(parse, listings)), numBuckets, selected.value)
  {
    var collected := CollectInPython(parse, listings);
    if collected.Err? { return collected; }
    var priced := collected.value;
    if |priced| == 0 { return Ok([]); }
    if MinPrice(priced) == MaxPrice(priced) {
      var at := FirstOfHighest(Rates(priced));
      SinglePriceSelection(priced, numBuckets, at);
      return Ok([priced[at]]);
    }
    var index := BucketIndexes(priced, numBuckets, false);
    var buckets, inserted, at := FillInPython(priced, index);
    FilledSameKey(priced, index, BucketOf(priced, numBuckets), buckets, at);
    var values := DictionaryValues(buckets, inserted);
    SortedBucketsAreSelection(priced, BucketOf(priced, numBuckets), buckets, at, inserted, values);
    return Ok(SortByPrice(values));
  }

  /** On every input whose texts both programs read alike: where Python answers, JavaScript answers the same list; where
   Python raises, JavaScript answers the single first hotel of the highest rating. */
  method BothPrograms(parseFloat: Reader, float: Reader, listings: seq<Listing>, numBuckets: nat)
    returns (javaScript: seq<Quote>, python: Result<seq<Hotel>, PriceError>)
    requires numBuckets > 0 && ReadAlike(parseFloat, float, listings)
    ensures python.Ok? ==> Readable(javaScript) && Numbers(javaScript) == python.value
    ensures python.Err? ==>
      exists at: nat :: FirstHighest(Scores(Quotes(parseFloat, listings)), at)
        && javaScript == [Quotes(parseFloat, listings)[at]]
  {
    ReadAlikeQuotesAlike(parseFloat, float, listings);
    javaScript := SelectHotelsInJavaScript(parseFloat, listings, numBuckets);
    python := SelectHotelsInPython(float, listings, numBuckets);
    if python.Ok? {
      SelectionIsUnique(Numbers(Quotes(float, listings)), numBuckets, Numbers(javaScript), python.value);
    }
  }
}
