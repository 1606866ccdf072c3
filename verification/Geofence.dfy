/**
 Geofence tests over exact reals.  The cosine of a latitude and the great-circle
 distance are parameters; a comparison of a square root with a non-negative bound
 is written as a comparison of squares.
 */
module Geofence {
  import opened Wrappers

  datatype Point = Point(latitude: real, longitude: real)

  type Polygon = seq<Point>

  datatype Edge = Edge(a: Point, b: Point)

  const EPSILON: real := 0.0000000001

  function Abs(x: real): real { if x < 0.0 then -x else x }

  function Cross(p: Point, e: Edge): real {
    (p.longitude - e.a.longitude) * (e.b.latitude - e.a.latitude)
    - (p.latitude - e.a.latitude) * (e.b.longitude - e.a.longitude)
  }

  function Dot(p: Point, e: Edge): real {
    (p.longitude - e.a.longitude) * (e.b.longitude - e.a.longitude)
    + (p.latitude - e.a.latitude) * (e.b.latitude - e.a.latitude)
  }

  function LengthSq(e: Edge): real {
    (e.b.longitude - e.a.longitude) * (e.b.longitude - e.a.longitude)
    + (e.b.latitude - e.a.latitude) * (e.b.latitude - e.a.latitude)
  }

  predicate PointOnSegment(p: Point, e: Edge) {
    !(Abs(Cross(p, e)) > EPSILON) && !(Dot(p, e) < -EPSILON) && Dot(p, e) <= LengthSq(e) + EPSILON
  }

  /** The longitude at which the edge's line meets a latitude. */
  function MeetsAt(e: Edge, latitude: real): real
    requires e.a.latitude != e.b.latitude
  {
    ((e.a.longitude - e.b.longitude) * (latitude - e.b.latitude)) / (e.a.latitude - e.b.latitude) + e.b.longitude
  }

  /** The ray from `p` crosses the edge; the guard keeps the denominator away from zero. */
  predicate Crosses(p: Point, e: Edge) {
    (e.b.latitude > p.latitude) != (e.a.latitude > p.latitude) && p.longitude < MeetsAt(e, p.latitude)
  }

  function Prev(i: nat, n: nat): nat
    requires i < n
  {
    if i == 0 then n - 1 else i - 1
  }

  /** Edge i runs from the previous vertex to vertex i. */
  function Edges(poly: Polygon): (es: seq<Edge>)
    ensures |es| == |poly|
    ensures forall i :: 0 <= i < |poly| ==> es[i] == Edge(poly[Prev(i, |poly|)], poly[i])
  {
    seq(|poly|, i requires 0 <= i < |poly| => Edge(poly[Prev(i, |poly|)], poly[i]))
  }

  /** Whether an odd number of edges is crossed. */
  predicate Odd(p: Point, es: seq<Edge>) {
    es != [] && (Crosses(p, es[|es| - 1]) != Odd(p, es[..|es| - 1]))
  }

  predicate OnSome(p: Point, es: seq<Edge>) { exists i :: 0 <= i < |es| && PointOnSegment(p, es[i]) }

  predicate Inside(p: Point, poly: Polygon) {
    |poly| >= 3 && (OnSome(p, Edges(poly)) || Odd(p, Edges(poly)))
  }

  method PointInPolygon(point: Point, polygon: Polygon) returns (answer: bool)
    ensures answer == Inside(point, polygon)
  {
    if |polygon| < 3 { return false; }
    var inside := false;
    var i, j := 0, |polygon| - 1;
    ghost var es := Edges(polygon);
    while i < |polygon|
      invariant 0 <= i <= |polygon| && j == if i == 0 then |polygon| - 1 else i - 1
      invariant inside == Odd(point, es[..i])
      invariant forall k :: 0 <= k < i ==> !PointOnSegment(point, es[k])
    {
      var e := Edge(polygon[j], polygon[i]);
      assert e == es[i];
      if PointOnSegment(point, e) { return true; }
      if Crosses(point, e) { inside := !inside; }
      assert es[..i + 1][..i] == es[..i];
      i, j := i + 1, i;
    }
    assert es[..i] == es;
    return inside;
  }

  // ----- Direction of an edge -----

  function Flip(e: Edge): Edge { Edge(e.b, e.a) }

  lemma DivTimes(x: real, d: real)
    requires d != 0.0
    ensures x / d * d == x
  {
  }

  /** The longitude at which the line through (aLng,aLat) and (bLng,bLat) meets the latitude y, from either end. */
  lemma MeetsFromEitherEnd(aLng: real, aLat: real, bLng: real, bLat: real, y: real)
    requires aLat != bLat
    ensures ((aLng - bLng) * (y - bLat)) / (aLat - bLat) + bLng == ((bLng - aLng) * (y - aLat)) / (bLat - aLat) + aLng
  {
    var d := aLat - bLat;
    var l, r := ((aLng - bLng) * (y - bLat)) / d, ((bLng - aLng) * (y - aLat)) / (bLat - aLat);
    DivTimes((aLng - bLng) * (y - bLat), d);
    DivTimes((bLng - aLng) * (y - aLat), bLat - aLat);
    assert l * d == (aLng - bLng) * (y - bLat);
    assert r * d == (aLng - bLng) * (y - aLat);
    assert (l - r) * d == (aLng - bLng) * d;
    Cancel(l - r, aLng - bLng, d);
  }

  lemma Cancel(x: real, y: real, d: real)
    requires d != 0.0 && x * d == y * d
    ensures x == y
  {
    DivTimes(x, d);
    assert (x - y) * d == 0.0;
  }

  lemma MeetsAtFlip(e: Edge, latitude: real)
    requires e.a.latitude != e.b.latitude
    ensures MeetsAt(Flip(e), latitude) == MeetsAt(e, latitude)
  {
    MeetsFromEitherEnd(e.a.longitude, e.a.latitude, e.b.longitude, e.b.latitude, latitude);
  }

  lemma CrossesFlip(p: Point, e: Edge)
    ensures Crosses(p, Flip(e)) == Crosses(p, e)
  {
    if e.a.latitude != e.b.latitude { MeetsAtFlip(e, p.latitude); }
  }

  /** Seen from the other end: (a, b) is the point, (d, e) the direction. */
  lemma FromOtherEnd(a: real, b: real, d: real, e: real)
    ensures (a - d) * -e - (b - e) * -d == -(a * e - b * d)
    ensures (a - d) * -d + (b - e) * -e == (d * d + e * e) - (a * d + b * e)
    ensures -d * -d + -e * -e == d * d + e * e
  {
  }

  lemma OnSegmentFlip(p: Point, e: Edge)
    ensures PointOnSegment(p, Flip(e)) == PointOnSegment(p, e)
  {
    var a, b := p.longitude - e.a.longitude, p.latitude - e.a.latitude;
    var d, h := e.b.longitude - e.a.longitude, e.b.latitude - e.a.latitude;
    FromOtherEnd(a, b, d, h);
    assert p.longitude - e.b.longitude == a - d && p.latitude - e.b.latitude == b - h;
    assert e.a.longitude - e.b.longitude == -d && e.a.latitude - e.b.latitude == -h;
    assert Cross(p, Flip(e)) == -Cross(p, e);
    assert Dot(p, Flip(e)) == LengthSq(e) - Dot(p, e);
    assert LengthSq(Flip(e)) == LengthSq(e);
  }

  // ----- Order of the edges -----

  lemma {:induction false} OddAppend(p: Point, a: seq<Edge>, b: seq<Edge>)
    ensures Odd(p, a + b) == (Odd(p, a) != Odd(p, b))
  {
    if b == [] {
      assert a + b == a;
    } else {
      assert (a + b)[..|a + b| - 1] == a + b[..|b| - 1];
      OddAppend(p, a, b[..|b| - 1]);
    }
  }

  lemma OnSomeAppend(p: Point, a: seq<Edge>, b: seq<Edge>)
    ensures OnSome(p, a + b) == (OnSome(p, a) || OnSome(p, b))
  {
    if OnSome(p, a) {
      var i :| 0 <= i < |a| && PointOnSegment(p, a[i]);
      assert (a + b)[i] == a[i];
    }
    if OnSome(p, b) {
      var i :| 0 <= i < |b| && PointOnSegment(p, b[i]);
      assert (a + b)[|a| + i] == b[i];
    }
  }

  lemma OddOne(p: Point, e: Edge)
    ensures Odd(p, [e]) == Crosses(p, e)
  {
    assert [e][..0] == [];
  }

  function Rotated<T>(s: seq<T>, k: nat): seq<T>
    requires k <= |s|
  {
    s[k..] + s[..k]
  }

  /** The answer does not depend on the vertex the list starts at. */
  lemma InsideRotated(p: Point, poly: Polygon, k: nat)
    requires k < |poly|
    ensures Inside(p, Rotated(poly, k)) == Inside(p, poly)
  {
    var es := Edges(poly);
    assert Edges(Rotated(poly, k)) == es[k..] + es[..k];
    assert es == es[..k] + es[k..];
    OddAppend(p, es[k..], es[..k]);
    OddAppend(p, es[..k], es[k..]);
    OnSomeAppend(p, es[k..], es[..k]);
    OnSomeAppend(p, es[..k], es[k..]);
  }

  function Reversed<T>(s: seq<T>): seq<T> {
    seq(|s|, i requires 0 <= i < |s| => s[|s| - 1 - i])
  }

  function FlippedReversed(es: seq<Edge>): seq<Edge> {
    seq(|es|, i requires 0 <= i < |es| => Flip(es[|es| - 1 - i]))
  }

  lemma {:induction false} OddFlippedReversed(p: Point, es: seq<Edge>)
    ensures Odd(p, FlippedReversed(es)) == Odd(p, es)
  {
    if es != [] {
      var n := |es| - 1;
      var head := [Flip(es[n])];
      assert FlippedReversed(es) == head + FlippedReversed(es[..n]);
      OddAppend(p, head, FlippedReversed(es[..n]));
      OddOne(p, Flip(es[n]));
      CrossesFlip(p, es[n]);
      OddFlippedReversed(p, es[..n]);
    }
  }

  lemma OnSomeFlippedReversed(p: Point, es: seq<Edge>)
    ensures OnSome(p, FlippedReversed(es)) == OnSome(p, es)
  {
    var r := FlippedReversed(es);
    forall i | 0 <= i < |es| ensures PointOnSegment(p, r[|es| - 1 - i]) == PointOnSegment(p, es[i]) {
      OnSegmentFlip(p, es[i]);
    }
    if OnSome(p, es) {
      var i :| 0 <= i < |es| && PointOnSegment(p, es[i]);
      assert PointOnSegment(p, r[|es| - 1 - i]);
    }
    if OnSome(p, r) {
      var i :| 0 <= i < |r| && PointOnSegment(p, r[i]);
      assert PointOnSegment(p, r[|es| - 1 - (|es| - 1 - i)]);
    }
  }

  lemma ReversedEdges(poly: Polygon)
    requires poly != []
    ensures Edges(Reversed(poly)) == [Flip(Edges(poly)[0])] + FlippedReversed(Edges(poly)[1..])
  {
    var n, es, r := |poly|, Edges(poly), Reversed(poly);
    var flipped := [Flip(es[0])] + FlippedReversed(es[1..]);
    forall i | 0 <= i < n ensures Edges(r)[i] == flipped[i] {
      if i > 0 {
        assert r[i] == poly[n - 1 - i] && r[i - 1] == poly[n - i];
        assert flipped[i] == Flip(es[1..][n - 1 - i]) == Flip(es[n - i]);
      }
    }
  }

  /** Nor on the direction the list runs in. */
  lemma InsideReversed(p: Point, poly: Polygon)
    ensures Inside(p, Reversed(poly)) == Inside(p, poly)
  {
    if poly != [] {
      var es := Edges(poly);
      var head, rest := [es[0]], es[1..];
      assert es == head + rest;
      ReversedEdges(poly);
      OddAppend(p, head, rest);
      OddAppend(p, [Flip(es[0])], FlippedReversed(rest));
      OnSomeAppend(p, head, rest);
      OnSomeAppend(p, [Flip(es[0])], FlippedReversed(rest));
      OddOne(p, es[0]);
      OddOne(p, Flip(es[0]));
      CrossesFlip(p, es[0]);
      OnSegmentFlip(p, es[0]);
      assert OnSome(p, [Flip(es[0])]) == OnSome(p, head) by {
        assert [Flip(es[0])][0] == Flip(es[0]) && head[0] == es[0];
      }
      OddFlippedReversed(p, rest);
      OnSomeFlippedReversed(p, rest);
    }
  }

  // ----- Cutting along a chord -----

  /** The vertices from i to j, and from j round to i. */
  function FirstPart(poly: Polygon, i: nat, j: nat): Polygon
    requires i < j < |poly|
  {
    poly[i..j + 1]
  }

  function SecondPart(poly: Polygon, i: nat, j: nat): Polygon
    requires i < j < |poly|
  {
    poly[j..] + poly[..i + 1]
  }

  lemma PartEdges(poly: Polygon, i: nat, j: nat)
    requires i < j < |poly|
    ensures var es := Edges(poly);
            && Edges(FirstPart(poly, i, j)) == [Edge(poly[j], poly[i])] + es[i + 1..j + 1]
            && Edges(SecondPart(poly, i, j)) == [Edge(poly[i], poly[j])] + (es[j + 1..] + es[..i + 1])
            && es == es[..i + 1] + (es[i + 1..j + 1] + es[j + 1..])
  {
  }

  /** Off every edge and the chord, inside the whole means inside exactly one of the two parts. */
  lemma CutAlongChord(p: Point, poly: Polygon, i: nat, j: nat)
    requires i < j < |poly| && |FirstPart(poly, i, j)| >= 3 && |SecondPart(poly, i, j)| >= 3
    requires !OnSome(p, Edges(poly)) && !PointOnSegment(p, Edge(poly[i], poly[j]))
    ensures Inside(p, poly) == (Inside(p, FirstPart(poly, i, j)) != Inside(p, SecondPart(poly, i, j)))
  {
    var es := Edges(poly);
    var lo, mid, hi := es[..i + 1], es[i + 1..j + 1], es[j + 1..];
    var chord := Edge(poly[i], poly[j]);
    PartEdges(poly, i, j);
    CrossesFlip(p, chord);
    OnSegmentFlip(p, chord);
    OddOne(p, chord);
    OddOne(p, Flip(chord));
    OddAppend(p, lo, mid + hi);
    OddAppend(p, mid, hi);
    OddAppend(p, [Flip(chord)], mid);
    OddAppend(p, [chord], hi + lo);
    OddAppend(p, hi, lo);
    OnSomeAppend(p, lo, mid + hi);
    OnSomeAppend(p, mid, hi);
    OnSomeAppend(p, [Flip(chord)], mid);
    OnSomeAppend(p, [chord], hi + lo);
    OnSomeAppend(p, hi, lo);
  }

  // ----- Zones and circles -----

  datatype Zone =
    | PolygonZone(polygon: Polygon)
    | CircleZone(center: Option<Point>, radiusM: Option<real>)

  type Distance = (Point, Point) -> real

  predicate ZoneContainsPoint(distance: Distance, zone: Zone, p: Point) {
    match zone
    case PolygonZone(polygon) => Inside(p, polygon)
    case CircleZone(Some(c), Some(r)) => distance(p, c) <= r
    case CircleZone(_, _) => false
  }

  const LAT_SCALE: real := 111320.0

  /** An edge in metres east and north of the centre; `cos` is the cosine of the centre's latitude. */
  datatype Flat = Flat(ax: real, ay: real, dx: real, dy: real) {
    /** The squared distance from the centre to the point at parameter `t`. */
    function SqAt(t: real): real { (ax + t * dx) * (ax + t * dx) + (ay + t * dy) * (ay + t * dy) }

    function LengthSquared(): real { dx * dx + dy * dy }

    function Nearest(): real {
      if LengthSquared() != 0.0 then Clamp(-(ax * dx + ay * dy) / LengthSquared()) else 0.0
    }
  }

  function Clamp(t: real): real { if t < 0.0 then 0.0 else if t > 1.0 then 1.0 else t }

  function Flatten(center: Point, cos: real, e: Edge): Flat {
    var lngScale := LAT_SCALE * cos;
    var ax, ay := (e.a.longitude - center.longitude) * lngScale, (e.a.latitude - center.latitude) * LAT_SCALE;
    var east, north := (e.b.longitude - center.longitude) * lngScale, (e.b.latitude - center.latitude) * LAT_SCALE;
    Flat(ax, ay, east - ax, north - ay)
  }

  predicate SegmentWithin(center: Point, cos: real, e: Edge, radius: real) {
    var f := Flatten(center, cos, e);
    f.SqAt(f.Nearest()) <= radius * radius
  }

  function Radius(radiusM: Option<real>): real {
    match radiusM
    case Some(r) => if r > 0.0 then r else 0.0
    case None => 0.0
  }

  function NextEdge(polygon: Polygon, i: nat): Edge
    requires i < |polygon|
  {
    Edge(polygon[i], polygon[(i + 1) % |polygon|])
  }

  predicate ZoneIntersectsCircle(distance: Distance, cos: real, zone: Zone, center: Point, radiusM: Option<real>) {
    var radius := Radius(radiusM);
    match zone
    case PolygonZone(polygon) =>
      |polygon| >= 3 &&
      (Inside(center, polygon) || exists i ::
        0 <= i < |polygon| && SegmentWithin(center, cos, NextEdge(polygon, i), radius))
    case CircleZone(Some(c), Some(r)) => distance(center, c) <= r + radius
    case CircleZone(_, _) => false
  }

  lemma SquareSign(x: real)
    ensures x * x >= 0.0
  {
  }

  lemma TimesDiv(x: real, d: real)
    requires d != 0.0
    ensures x * d / d == x
  {
  }

  lemma ZeroFactor(x: real, y: real)
    requires x * y == 0.0 && y != 0.0
    ensures x == 0.0
  {
    TimesDiv(x, y);
  }

  lemma SquareZero(x: real)
    requires x * x == 0.0
    ensures x == 0.0
  {
    if x != 0.0 { ZeroFactor(x, x); }
  }

  /** SqAt is a parabola in t. */
  lemma SqDifference(f: Flat, u: real, t: real)
    ensures f.SqAt(u) - f.SqAt(t) == (u - t) * (2.0 * (f.ax * f.dx + f.ay * f.dy) + (u + t) * f.LengthSquared())
  {
  }

  lemma SignProduct(x: real, y: real)
    ensures (x >= 0.0 && y >= 0.0) || (x <= 0.0 && y <= 0.0) ==> x * y >= 0.0
  {
  }

  /** Around its vertex q a parabola opening upwards is least at the clamped q. */
  lemma ClampedVertex(l: real, q: real, u: real)
    requires l > 0.0 && 0.0 <= u <= 1.0
    ensures (u - Clamp(q)) * ((u + Clamp(q) - 2.0 * q) * l) >= 0.0
  {
    var t := Clamp(q);
    var w := u + t - 2.0 * q;
    SignProduct(w, l);
    SignProduct(-w, l);
    assert -w * l == -(w * l);
    SignProduct(u - t, w * l);
  }

  lemma LeastAtClamp(atU: real, atT: real, b: real, l: real, u: real)
    requires l > 0.0 && 0.0 <= u <= 1.0
    requires var t := Clamp(-b / l); atU - atT == (u - t) * (2.0 * b + (u + t) * l)
    ensures atT <= atU
  {
    var q := -b / l;
    DivTimes(-b, l);
    VertexForm(b, l, q, u + Clamp(q));
    ClampedVertex(l, q, u);
  }

  lemma ZeroLength(f: Flat)
    ensures f.LengthSquared() >= 0.0
    ensures f.LengthSquared() == 0.0 ==> f.dx == 0.0 && f.dy == 0.0
  {
    SquareSign(f.dx);
    SquareSign(f.dy);
    if f.LengthSquared() == 0.0 {
      SquareZero(f.dx);
      SquareZero(f.dy);
    }
  }

  /** The clamped parameter minimises the distance over the whole segment. */
  lemma NearestIsNearest(f: Flat, u: real)
    requires 0.0 <= u <= 1.0
    ensures 0.0 <= f.Nearest() <= 1.0 && f.SqAt(f.Nearest()) <= f.SqAt(u)
  {
    ZeroLength(f);
    SqDifference(f, u, f.Nearest());
    if f.LengthSquared() != 0.0 {
      LeastAtClamp(f.SqAt(u), f.SqAt(f.Nearest()), f.ax * f.dx + f.ay * f.dy, f.LengthSquared(), u);
    }
  }

  lemma VertexForm(b: real, l: real, q: real, sum: real)
    requires q * l == -b
    ensures 2.0 * b + sum * l == (sum - 2.0 * q) * l
  {
  }

  /** Some point of the edge lies within the radius. */
  ghost predicate Touches(center: Point, cos: real, e: Edge, radius: real) {
    exists u :: 0.0 <= u <= 1.0 && Flatten(center, cos, e).SqAt(u) <= radius * radius
  }

  lemma WithinIfTouches(f: Flat, u: real, bound: real)
    requires 0.0 <= u <= 1.0 && f.SqAt(u) <= bound
    ensures f.SqAt(f.Nearest()) <= bound
  {
    NearestIsNearest(f, u);
  }

  lemma WithinIffTouches(center: Point, cos: real, e: Edge, radius: real)
    ensures SegmentWithin(center, cos, e, radius) <==> Touches(center, cos, e, radius)
  {
    var f := Flatten(center, cos, e);
    NearestIsNearest(f, 0.0);
    if u :| 0.0 <= u <= 1.0 && f.SqAt(u) <= radius * radius {
      WithinIfTouches(f, u, radius * radius);
    }
  }

  /** A polygon meets the circle exactly when the centre is inside or some point of some edge is within the radius. */
  lemma IntersectsIffTouches(distance: Distance, cos: real, polygon: Polygon, center: Point, radiusM: Option<real>)
    ensures ZoneIntersectsCircle(distance, cos, PolygonZone(polygon), center, radiusM) <==>
            |polygon| >= 3 &&
            (Inside(center, polygon)
             || exists i :: 0 <= i < |polygon| && Touches(center, cos, NextEdge(polygon, i), Radius(radiusM)))
  {
    forall i | 0 <= i < |polygon|
      ensures SegmentWithin(center, cos, NextEdge(polygon, i), Radius(radiusM)) <==>
              Touches(center, cos, NextEdge(polygon, i), Radius(radiusM))
    {
      WithinIffTouches(center, cos, NextEdge(polygon, i), Radius(radiusM));
    }
  }

  lemma WiderSquare(sq: real, r: real, s: real)
    requires 0.0 <= r <= s && sq <= r * r
    ensures sq <= s * s
  {
    SignProduct(s - r, s + r);
    assert (s - r) * (s + r) == s * s - r * r;
  }

  lemma SegmentMonotone(center: Point, cos: real, e: Edge, r: real, s: real)
    requires 0.0 <= r <= s && SegmentWithin(center, cos, e, r)
    ensures SegmentWithin(center, cos, e, s)
  {
    var f := Flatten(center, cos, e);
    WiderSquare(f.SqAt(f.Nearest()), r, s);
  }

  /** A larger circle meets whatever a smaller one meets, and every zone that contains the centre is met. */
  lemma IntersectsMonotone(distance: Distance, cos: real, zone: Zone, center: Point, small: Option<real>,
      large: Option<real>)
    requires Radius(small) <= Radius(large)
    ensures ZoneIntersectsCircle(distance, cos, zone, center, small) ==>
            ZoneIntersectsCircle(distance, cos, zone, center, large)
    ensures ZoneContainsPoint(distance, zone, center) ==> ZoneIntersectsCircle(distance, cos, zone, center, small)
  {
    var r, s := Radius(small), Radius(large);
    if zone.PolygonZone? {
      forall i | 0 <= i < |zone.polygon| && SegmentWithin(center, cos, NextEdge(zone.polygon, i), r)
        ensures SegmentWithin(center, cos, NextEdge(zone.polygon, i), s)
      {
        SegmentMonotone(center, cos, NextEdge(zone.polygon, i), r, s);
      }
    }
  }
}
