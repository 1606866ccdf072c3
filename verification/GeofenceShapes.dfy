/**
 What the even-odd test finds inside: triangles by the sides of their edges, every polygon by the triangles of a fan,
 and nothing beyond the bounding box. */
module GeofenceShapes {
  import opened Geofence

  // ----- Crossing without division -----

  lemma LessThanQuotient(q: real, n: real, d: real)
    requires d != 0.0
    ensures q < n / d <==> if d > 0.0 then q * d < n else q * d > n
  {
    DivTimes(n, d);
    var m := n / d;
    if d > 0.0 { Scaled(q, m, d); } else { Scaled(q, m, -d); }
  }

  lemma Scaled(q: real, m: real, d: real)
    requires d > 0.0
    ensures q < m <==> q * d < m * d
    ensures q * -d == -(q * d) && m * -d == -(m * d)
  {
    if q < m { assert (m - q) * d > 0.0; } else { assert (q - m) * d >= 0.0; }
  }

  lemma CrossFlips(p: Point, e: Edge)
    ensures Cross(p, Flip(e)) == -Cross(p, e)
  {
    FromOtherEnd(p.longitude - e.a.longitude, p.latitude - e.a.latitude,
                 e.b.longitude - e.a.longitude, e.b.latitude - e.a.latitude);
    assert p.longitude - e.b.longitude == (p.longitude - e.a.longitude) - (e.b.longitude - e.a.longitude);
    assert p.latitude - e.b.latitude == (p.latitude - e.a.latitude) - (e.b.latitude - e.a.latitude);
  }

  predicate Up(p: Point, e: Edge) { e.a.latitude <= p.latitude < e.b.latitude }

  predicate Down(p: Point, e: Edge) { e.b.latitude <= p.latitude < e.a.latitude }

  /** The ray crosses an edge exactly when the edge passes the point's latitude on the east: going north with the point
   on its left, or going south with the point on its right. */
  lemma CrossesIffSide(p: Point, e: Edge)
    ensures Crosses(p, e) <==> (Up(p, e) && Cross(p, e) < 0.0) || (Down(p, e) && Cross(p, e) > 0.0)
  {
    if Up(p, e) || Down(p, e) {
      var d := e.a.latitude - e.b.latitude;
      var n := (e.a.longitude - e.b.longitude) * (p.latitude - e.b.latitude);
      var q := p.longitude - e.b.longitude;
      LessThanQuotient(q, n, d);
      CrossFlips(p, e);
      assert Cross(p, Flip(e)) == q * d - n;
    }
  }

  // ----- Triangles -----

  /** Strictly on the same side of all three edges. */
  predicate Within(p: Point, a: Point, b: Point, c: Point) {
    var x, y, z := Cross(p, Edge(a, b)), Cross(p, Edge(b, c)), Cross(p, Edge(c, a));
    (x < 0.0 && y < 0.0 && z < 0.0) || (x > 0.0 && y > 0.0 && z > 0.0)
  }

  /** With (x, h) and (y, k) the ends of an edge seen from the point, its side is a determinant. */
  function Det(x: real, h: real, y: real, k: real): real { y * h - x * k }

  lemma CrossIsDet(p: Point, e: Edge)
    ensures Cross(p, e) == Det(e.a.longitude - p.longitude, e.a.latitude - p.latitude,
                               e.b.longitude - p.longitude, e.b.latitude - p.latitude)
  {
    var x, h := e.a.longitude - p.longitude, e.a.latitude - p.latitude;
    var y, k := e.b.longitude - p.longitude, e.b.latitude - p.latitude;
    assert e.b.latitude - e.a.latitude == k - h && e.b.longitude - e.a.longitude == y - x;
    assert p.longitude - e.a.longitude == -x && p.latitude - e.a.latitude == -h;
    assert Cross(p, e) == -x * (k - h) - -h * (y - x);
    Expand(x, h, y, k);
  }

  lemma Expand(x: real, h: real, y: real, k: real)
    ensures -x * (k - h) - -h * (y - x) == y * h - x * k
    ensures -x * (y - x) + -h * (k - h) == (x * x + h * h) - (x * y + h * k)
    ensures (y - x) * (y - x) + (k - h) * (k - h) == (x * x + h * h) + (y * y + k * k) - 2.0 * (x * y + h * k)
  {
  }

  lemma DetSum(x: real, h: real, y: real, k: real, z: real, l: real)
    ensures Det(x, h, y, k) * l + Det(y, k, z, l) * h + Det(z, l, x, h) * k == 0.0
  {
  }

  /** An edge whose ends lie in opposite directions has the point on it. */
  lemma OppositeEndsAreOn(p: Point, e: Edge, x: real, h: real, y: real, k: real)
    requires x == e.a.longitude - p.longitude && h == e.a.latitude - p.latitude
    requires y == e.b.longitude - p.longitude && k == e.b.latitude - p.latitude
    requires Det(x, h, y, k) == 0.0 && x * y + h * k <= 0.0
    ensures PointOnSegment(p, e)
  {
    CrossIsDet(p, e);
    Expand(x, h, y, k);
    assert p.longitude - e.a.longitude == -x && p.latitude - e.a.latitude == -h;
    assert e.b.longitude - e.a.longitude == y - x && e.b.latitude - e.a.latitude == k - h;
    SquareSign(x);
    SquareSign(h);
    SquareSign(y);
    SquareSign(k);
  }

  lemma OppositeSigns(x: real, h: real, y: real, k: real)
    requires Det(x, h, y, k) == 0.0 && (h <= 0.0 < k || k <= 0.0 < h)
    ensures x * y + h * k <= 0.0
  {
    SignProduct(-h, k);
    assert -h * k == -(h * k);
    if h == 0.0 {
      ZeroFactor(x, k);
    } else {
      SquareSign(x);
      SignProduct(x * x, -(h * k));
      assert (x * y) * (h * h) == (x * x) * (h * k) by { SameProduct(x, h, y, k); }
      assert (x * x) * -(h * k) == -((x * x) * (h * k));
      if h * h == 0.0 { SquareZero(h); }
      NotPositive(x * y, h * h);
    }
  }

  lemma SameProduct(x: real, h: real, y: real, k: real)
    requires y * h == x * k
    ensures (x * y) * (h * h) == (x * x) * (h * k)
  {
    assert (x * y) * (h * h) == (x * h) * (y * h) == (x * h) * (x * k);
  }

  lemma NotPositive(u: real, d: real)
    requires u * d <= 0.0 && d > 0.0
    ensures u <= 0.0
  {
  }

  /** Off the edge: a straddling edge leaves the point on one side, and a level one does not reach over it. */
  predicate Clear(x: real, h: real, y: real, k: real) {
    && (h <= 0.0 < k || k <= 0.0 < h ==> Det(x, h, y, k) != 0.0)
    && (h == 0.0 && k == 0.0 ==> x * y > 0.0)
  }

  lemma OffEdgeIsClear(p: Point, e: Edge)
    requires !PointOnSegment(p, e)
    ensures Clear(e.a.longitude - p.longitude, e.a.latitude - p.latitude,
                  e.b.longitude - p.longitude, e.b.latitude - p.latitude)
  {
    var x, h := e.a.longitude - p.longitude, e.a.latitude - p.latitude;
    var y, k := e.b.longitude - p.longitude, e.b.latitude - p.latitude;
    if (h <= 0.0 < k || k <= 0.0 < h) && Det(x, h, y, k) == 0.0 {
      OppositeSigns(x, h, y, k);
      OppositeEndsAreOn(p, e, x, h, y, k);
    }
    if h == 0.0 && k == 0.0 && x * y <= 0.0 { OppositeEndsAreOn(p, e, x, h, y, k); }
  }

  predicate SameSign(u: real, v: real, w: real) { (u < 0.0 && v < 0.0 && w < 0.0) || (u > 0.0 && v > 0.0 && w > 0.0) }

  /** A sum of three products whose first factors have one sign and whose second are all above, or all at or below, zero
   vanishes only when the second factors do. */
  lemma SumVanishes(u: real, v: real, w: real, h: real, k: real, l: real)
    requires SameSign(u, v, w) && u * l + v * h + w * k == 0.0
    requires (h > 0.0 && k > 0.0 && l > 0.0) || (h <= 0.0 && k <= 0.0 && l <= 0.0)
    ensures h == 0.0 && k == 0.0 && l == 0.0
    decreases u < 0.0
  {
    if u < 0.0 {
      SumVanishes(-u, -v, -w, h, k, l);
    } else if h > 0.0 {
      SumIsPositive(u, v, w, h, k, l);
    } else {
      assert u * l <= 0.0 && v * h <= 0.0 && w * k <= 0.0;
      assert u * l == 0.0 && v * h == 0.0 && w * k == 0.0;
      ZeroFactor(l, u);
      ZeroFactor(h, v);
      ZeroFactor(k, w);
    }
  }

  lemma SumIsPositive(u: real, v: real, w: real, h: real, k: real, l: real)
    requires u > 0.0 && v > 0.0 && w > 0.0 && h > 0.0 && k > 0.0 && l > 0.0
    ensures u * l + v * h + w * k > 0.0
  {
    assert u * l > 0.0 && v * h > 0.0 && w * k > 0.0;
  }

  lemma LevelIsNotWithin(x: real, h: real, y: real, k: real, z: real, l: real)
    requires (h > 0.0) == (k > 0.0) == (l > 0.0)
    requires (h > 0.0 && k > 0.0 && l > 0.0) || (h <= 0.0 && k <= 0.0 && l <= 0.0)
    ensures !SameSign(Det(x, h, y, k), Det(y, k, z, l), Det(z, l, x, h))
  {
    DetSum(x, h, y, k, z, l);
    if SameSign(Det(x, h, y, k), Det(y, k, z, l), Det(z, l, x, h)) {
      SumVanishes(Det(x, h, y, k), Det(y, k, z, l), Det(z, l, x, h), h, k, l);
    }
  }

  /** The third vertex is alone above or below: the point is between the two edges at it exactly when it is on the same
   side of all three. */
  lemma LoneVertex(x: real, h: real, y: real, k: real, z: real, l: real)
    requires (h > 0.0 && k > 0.0 && l <= 0.0) || (h <= 0.0 && k <= 0.0 && l > 0.0)
    requires Clear(x, h, y, k) && Clear(y, k, z, l) && Clear(z, l, x, h)
    ensures SameSign(Det(x, h, y, k), Det(y, k, z, l), Det(z, l, x, h)) <==>
            (Det(y, k, z, l) < 0.0) == (Det(z, l, x, h) < 0.0)
  {
    var u, v, w := Det(x, h, y, k), Det(y, k, z, l), Det(z, l, x, h);
    DetSum(x, h, y, k, z, l);
    assert v != 0.0 && w != 0.0;
    if (v < 0.0) == (w < 0.0) {
      if h == 0.0 && k == 0.0 {
        LevelBase(x, y, z, l);
      } else {
        ThirdSide(u, v, w, h, k, l);
      }
    }
  }

  /** With a level edge at the point's latitude, the edges at the lone vertex have the point between them only if the
   level edge reaches over it. */
  lemma LevelBase(x: real, y: real, z: real, l: real)
    requires l > 0.0 && x * y > 0.0
    ensures (Det(y, 0.0, z, l) < 0.0) != (Det(z, l, x, 0.0) < 0.0)
  {
    assert Det(y, 0.0, z, l) == -(y * l) && Det(z, l, x, 0.0) == x * l;
    assert y * l > 0.0 <==> y > 0.0;
    assert x * l > 0.0 <==> x > 0.0;
    assert (x > 0.0) == (y > 0.0);
  }

  lemma ThirdSide(u: real, v: real, w: real, h: real, k: real, l: real)
    requires u * l + v * h + w * k == 0.0 && v != 0.0 && w != 0.0 && (v < 0.0) == (w < 0.0)
    requires (h > 0.0 && k > 0.0 && l <= 0.0) || (h <= 0.0 && k <= 0.0 && l > 0.0 && !(h == 0.0 && k == 0.0))
    ensures SameSign(u, v, w)
  {
    if v < 0.0 { ThirdSidePositive(-u, -v, -w, h, k, l); } else { ThirdSidePositive(u, v, w, h, k, l); }
  }

  lemma ThirdSidePositive(u: real, v: real, w: real, h: real, k: real, l: real)
    requires u * l + v * h + w * k == 0.0 && v > 0.0 && w > 0.0
    requires (h > 0.0 && k > 0.0 && l <= 0.0) || (h <= 0.0 && k <= 0.0 && l > 0.0 && !(h == 0.0 && k == 0.0))
    ensures u > 0.0
  {
    if h > 0.0 {
      assert v * h > 0.0 && w * k > 0.0;
      assert u * l < 0.0;
      if u <= 0.0 { SignProduct(u, l); }
    } else {
      assert v * h <= 0.0 && w * k <= 0.0;
      assert h < 0.0 ==> v * h < 0.0;
      assert k < 0.0 ==> w * k < 0.0;
      assert u * l > 0.0;
      if u <= 0.0 { SignProduct(-u, l); }
    }
  }

  lemma OddThree(p: Point, e: Edge, f: Edge, g: Edge)
    ensures Odd(p, [e, f, g]) == ((Crosses(p, e) != Crosses(p, f)) != Crosses(p, g))
  {
    assert [e, f, g] == [e] + [f] + [g];
    OddAppend(p, [e] + [f], [g]);
    OddAppend(p, [e], [f]);
    OddOne(p, e);
    OddOne(p, f);
    OddOne(p, g);
  }

  lemma TriangleParity(p: Point, a: Point, b: Point, c: Point)
    requires !PointOnSegment(p, Edge(a, b)) && !PointOnSegment(p, Edge(b, c)) && !PointOnSegment(p, Edge(c, a))
    ensures ((Crosses(p, Edge(a, b)) != Crosses(p, Edge(b, c))) != Crosses(p, Edge(c, a))) <==> Within(p, a, b, c)
  {
    var e, f, g := Edge(a, b), Edge(b, c), Edge(c, a);
    var x, h := a.longitude - p.longitude, a.latitude - p.latitude;
    var y, k := b.longitude - p.longitude, b.latitude - p.latitude;
    var z, l := c.longitude - p.longitude, c.latitude - p.latitude;
    OffEdgeIsClear(p, e);
    OffEdgeIsClear(p, f);
    OffEdgeIsClear(p, g);
    CrossIsDet(p, e);
    CrossIsDet(p, f);
    CrossIsDet(p, g);
    CrossesIffSide(p, e);
    CrossesIffSide(p, f);
    CrossesIffSide(p, g);
    if (h > 0.0) == (k > 0.0) {
      if (k > 0.0) == (l > 0.0) {
        LevelIsNotWithin(x, h, y, k, z, l);
      } else {
        LoneVertex(x, h, y, k, z, l);
      }
    } else if (h > 0.0) == (l > 0.0) {
      LoneVertex(z, l, x, h, y, k);
    } else {
      LoneVertex(y, k, z, l, x, h);
    }
  }

  /** Off its edges, a point is inside a triangle exactly when it is strictly on the same side of all three. */
  lemma TriangleInside(p: Point, a: Point, b: Point, c: Point)
    requires !OnSome(p, Edges([a, b, c]))
    ensures Inside(p, [a, b, c]) <==> Within(p, a, b, c)
  {
    var es := Edges([a, b, c]);
    assert es == [Edge(c, a), Edge(a, b), Edge(b, c)];
    assert !PointOnSegment(p, es[0]) && !PointOnSegment(p, es[1]) && !PointOnSegment(p, es[2]);
    OddThree(p, es[0], es[1], es[2]);
    TriangleParity(p, a, b, c);
  }

  // ----- Polygons -----

  /** An odd number of the triangles from the first vertex to the edges before vertex `n` has the point within. */
  predicate FanOdd(p: Point, poly: Polygon, n: nat)
    requires n <= |poly|
  {
    n >= 3 && (Within(p, poly[0], poly[n - 2], poly[n - 1]) != FanOdd(p, poly, n - 1))
  }

  predicate OffFan(p: Point, poly: Polygon) {
    && !OnSome(p, Edges(poly))
    && forall k | 2 <= k < |poly| - 1 :: !PointOnSegment(p, Edge(poly[0], poly[k]))
  }

  lemma {:induction false} FanOfPrefix(p: Point, poly: Polygon, m: nat, n: nat)
    requires n <= m <= |poly|
    ensures FanOdd(p, poly[..m], n) == FanOdd(p, poly, n)
  {
    if n >= 3 { FanOfPrefix(p, poly, m, n - 1); }
  }

  /** Off the edges and the fan's diagonals, a point is inside any polygon, convex or not, self-crossing or not, exactly
   when an odd number of the fan's triangles has it within. */
  lemma {:induction false} InsideIffFanOdd(p: Point, poly: Polygon)
    requires |poly| >= 3 && OffFan(p, poly)
    ensures Inside(p, poly) <==> FanOdd(p, poly, |poly|)
    decreases |poly|
  {
    var n := |poly|;
    if n == 3 {
      assert poly == [poly[0], poly[1], poly[2]];
      TriangleInside(p, poly[0], poly[1], poly[2]);
      assert !FanOdd(p, poly, 2);
    } else {
      var first, second := FirstPart(poly, 0, n - 2), SecondPart(poly, 0, n - 2);
      assert first == poly[..n - 1] && second == [poly[n - 2], poly[n - 1], poly[0]];
      CutAlongChord(p, poly, 0, n - 2);
      PartsAreOff(p, poly);
      InsideIffFanOdd(p, first);
      FanOfPrefix(p, poly, n - 1, n - 1);
      TriangleInside(p, poly[n - 2], poly[n - 1], poly[0]);
    }
  }

  lemma PartsAreOff(p: Point, poly: Polygon)
    requires |poly| >= 4 && OffFan(p, poly)
    ensures var n := |poly|;
      OffFan(p, poly[..n - 1]) && !OnSome(p, Edges([poly[n - 2], poly[n - 1], poly[0]]))
  {
    var n := |poly|;
    var es := Edges(poly);
    var first, second := FirstPart(poly, 0, n - 2), SecondPart(poly, 0, n - 2);
    assert first == poly[..n - 1] && second == [poly[n - 2], poly[n - 1], poly[0]];
    var chord := Edge(poly[0], poly[n - 2]);
    PartEdges(poly, 0, n - 2);
    OnSegmentFlip(p, chord);
    var lo, mid, hi := es[..1], es[1..n - 1], es[n - 1..];
    OnSomeAppend(p, lo, mid + hi);
    OnSomeAppend(p, mid, hi);
    OnSomeAppend(p, [Flip(chord)], mid);
    OnSomeAppend(p, [chord], hi + lo);
    OnSomeAppend(p, hi, lo);
    assert !OnSome(p, Edges(first)) && !OnSome(p, Edges(second));
  }

  /** The point at parameter `t` of an edge. */
  function Along(e: Edge, t: real): Point {
    Point(e.a.latitude + t * (e.b.latitude - e.a.latitude), e.a.longitude + t * (e.b.longitude - e.a.longitude))
  }

  lemma EndsFromAlong(t: real, d: real, f: real)
    requires 0.0 <= t <= 1.0
    ensures Det(-(t * d), -(t * f), d - t * d, f - t * f) == 0.0
    ensures -(t * d) * (d - t * d) + -(t * f) * (f - t * f) <= 0.0
  {
    assert d - t * d == (1.0 - t) * d && f - t * f == (1.0 - t) * f;
    assert -(t * d) * ((1.0 - t) * d) == -((t * (1.0 - t)) * (d * d));
    assert -(t * f) * ((1.0 - t) * f) == -((t * (1.0 - t)) * (f * f));
    SignProduct(t, 1.0 - t);
    SquareSign(d);
    SquareSign(f);
    SignProduct(t * (1.0 - t), d * d);
    SignProduct(t * (1.0 - t), f * f);
  }

  /** Every point of every edge is inside, the corners included. */
  lemma EdgePointsAreInside(poly: Polygon, i: nat, t: real)
    requires i < |poly| && |poly| >= 3 && 0.0 <= t <= 1.0
    ensures Inside(Along(Edges(poly)[i], t), poly)
  {
    var e := Edges(poly)[i];
    var p := Along(e, t);
    var d, f := e.b.longitude - e.a.longitude, e.b.latitude - e.a.latitude;
    EndsFromAlong(t, d, f);
    OppositeEndsAreOn(p, e, -(t * d), -(t * f), d - t * d, f - t * f);
  }

  // ----- The bounding box -----

  /** Some side of the bounding box separates the point from every vertex. */
  predicate Beyond(p: Point, poly: Polygon) {
    || (forall i | 0 <= i < |poly| :: poly[i].latitude > p.latitude)
    || (forall i | 0 <= i < |poly| :: poly[i].latitude <= p.latitude)
    || (forall i | 0 <= i < |poly| :: poly[i].longitude > p.longitude)
    || (forall i | 0 <= i < |poly| :: poly[i].longitude <= p.longitude)
  }

  predicate Straddles(p: Point, e: Edge) { Up(p, e) || Down(p, e) }

  lemma SideOfEastOrWest(p: Point, e: Edge)
    requires Straddles(p, e)
    ensures e.a.longitude > p.longitude && e.b.longitude > p.longitude ==> Crosses(p, e)
    ensures e.a.longitude <= p.longitude && e.b.longitude <= p.longitude ==> !Crosses(p, e)
  {
    var x, h := e.a.longitude - p.longitude, e.a.latitude - p.latitude;
    var y, k := e.b.longitude - p.longitude, e.b.latitude - p.latitude;
    CrossIsDet(p, e);
    CrossesIffSide(p, e);
    Weighted(x, y, h, k);
  }

  lemma Weighted(x: real, y: real, h: real, k: real)
    requires h <= 0.0 < k || k <= 0.0 < h
    ensures x > 0.0 && y > 0.0 ==> if k > 0.0 then y * h - x * k < 0.0 else y * h - x * k > 0.0
    ensures x <= 0.0 && y <= 0.0 ==> if k > 0.0 then y * h - x * k >= 0.0 else y * h - x * k <= 0.0
  {
    if x > 0.0 && y > 0.0 {
      if k > 0.0 { assert x * k > 0.0 && y * h <= 0.0; } else { assert x * k <= 0.0 && y * h > 0.0; }
    }
    if x <= 0.0 && y <= 0.0 {
      if k > 0.0 { assert x * k <= 0.0 && y * h >= 0.0; } else { assert x * k >= 0.0 && y * h <= 0.0; }
    }
  }

  /** Going round, the latitude is passed as often northwards as southwards. */
  lemma {:induction false} AllCrossedIsEven(p: Point, poly: Polygon, n: nat)
    requires 0 < n <= |poly|
    requires forall i | 0 <= i < n :: Crosses(p, Edges(poly)[i]) <==> Straddles(p, Edges(poly)[i])
    ensures Odd(p, Edges(poly)[..n]) <==>
            (poly[|poly| - 1].latitude > p.latitude) != (poly[n - 1].latitude > p.latitude)
  {
    var es := Edges(poly);
    assert es[..n][..n - 1] == es[..n - 1];
    if n == 1 {
      assert !Odd(p, es[..0]);
    } else {
      AllCrossedIsEven(p, poly, n - 1);
    }
  }

  lemma {:induction false} NoneCrossedIsEven(p: Point, es: seq<Edge>)
    requires forall i | 0 <= i < |es| :: !Crosses(p, es[i])
    ensures !Odd(p, es)
  {
    if es != [] { NoneCrossedIsEven(p, es[..|es| - 1]); }
  }

  /** Off the edges, no point beyond the bounding box is inside. */
  lemma {:induction false} BeyondIsOutside(p: Point, poly: Polygon)
    requires Beyond(p, poly) && !OnSome(p, Edges(poly))
    ensures !Inside(p, poly)
  {
    var es := Edges(poly);
    if |poly| >= 3 {
      if forall i | 0 <= i < |poly| :: poly[i].longitude > p.longitude {
        forall i | 0 <= i < |poly|
          ensures Crosses(p, es[i]) <==> Straddles(p, es[i])
        {
          if Straddles(p, es[i]) { SideOfEastOrWest(p, es[i]); }
        }
        AllCrossedIsEven(p, poly, |poly|);
        assert es[..|poly|] == es;
      } else {
        forall i | 0 <= i < |poly|
          ensures !Crosses(p, es[i])
        {
          if Straddles(p, es[i]) { SideOfEastOrWest(p, es[i]); }
        }
        NoneCrossedIsEven(p, es);
      }
    }
  }
}
