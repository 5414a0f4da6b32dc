/** Wall crossings between two floor-plan points, over exact reals. */
module Geometry {
  import opened Registry

  datatype Point = Point(x: real, y: real)

  const EPSILON := 0.000000001
  const MAX_OBLIQUE_FACTOR := 3.0

  function Abs(x: real): real { if x < 0.0 then -x else x }
  function Cross(ax: real, ay: real, wx: real, wy: real): real { ax * wy - ay * wx }

  // Direction of a segment, cross products as the intersection test uses them.
  function Denom(p: Point, q: Point, a: Point, b: Point): real { Cross(q.x - p.x, q.y - p.y, b.x - a.x, b.y - a.y) }
  function OffPath(p: Point, q: Point, a: Point): real { Cross(a.x - p.x, a.y - p.y, q.x - p.x, q.y - p.y) }
  function OffWall(p: Point, a: Point, b: Point): real { Cross(a.x - p.x, a.y - p.y, b.x - a.x, b.y - a.y) }
  function LengthSq(p: Point, q: Point): real { (q.x - p.x) * (q.x - p.x) + (q.y - p.y) * (q.y - p.y) }
  // Where a point projects on the line p-q, times the squared length.
  function Along(p: Point, q: Point, a: Point): real { (a.x - p.x) * (q.x - p.x) + (a.y - p.y) * (q.y - p.y) }
  function WallAlong(p: Point, q: Point, a: Point, b: Point): real {
    (b.x - a.x) * (q.x - p.x) + (b.y - a.y) * (q.y - p.y)
  }

  /** In the parallel case: the wall's projection on the path meets the path. */
  predicate Overlaps(p: Point, q: Point, a: Point, b: Point)
    requires LengthSq(p, q) > 0.0
  {
    var t0 := Along(p, q, a) / LengthSq(p, q);
    var t1 := t0 + WallAlong(p, q, a, b) / LengthSq(p, q);
    var low, high := if t0 <= t1 then t0 else t1, if t0 <= t1 then t1 else t0;
    high >= 0.0 && low <= 1.0
  }

  predicate SegmentsIntersect(p: Point, q: Point, a: Point, b: Point) {
    var denom := Denom(p, q, a, b);
    if Abs(denom) < EPSILON then
      Abs(OffPath(p, q, a)) <= EPSILON && LengthSq(p, q) >= EPSILON && Overlaps(p, q, a, b)
    else
      var t, u := OffWall(p, a, b) / denom, OffPath(p, q, a) / denom;
      0.0 <= t <= 1.0 && 0.0 <= u <= 1.0
  }

  // ---- What it decides -----------------------------------------------------------------

  function At(p: Point, q: Point, t: real): Point { Point(p.x + t * (q.x - p.x), p.y + t * (q.y - p.y)) }

  ghost predicate Meet(p: Point, q: Point, a: Point, b: Point, t: real, u: real) {
    0.0 <= t <= 1.0 && 0.0 <= u <= 1.0 && At(p, q, t) == At(a, b, u)
  }

  /** Some point lies on both closed segments. */
  ghost predicate Common(p: Point, q: Point, a: Point, b: Point) { exists t, u :: Meet(p, q, a, b, t, u) }

  lemma ProductSign(x: real, y: real)
    ensures (x >= 0.0 && y >= 0.0) || (x <= 0.0 && y <= 0.0) ==> x * y >= 0.0
    ensures (x >= 0.0 && y <= 0.0) || (x <= 0.0 && y >= 0.0) ==> x * y <= 0.0
    ensures (x > 0.0 && y > 0.0) || (x < 0.0 && y < 0.0) ==> x * y > 0.0
  {
  }

  lemma FactorSign(x: real, d: real)
    requires d > 0.0
    ensures (x * d >= 0.0 <==> x >= 0.0) && (x * d <= 0.0 <==> x <= 0.0)
  {
    ProductSign(x, d);
    if x < 0.0 { assert (-x) * d > 0.0; }
  }

  lemma DivMul(n: real, d: real)
    requires d != 0.0
    ensures n / d * d == n
  {
  }

  lemma SameQuotient(x: real, n: real, d: real)
    requires d != 0.0 && x * d == n
    ensures n / d == x
  {
  }

  /** Cramer's rule: where the lines meet, both parameters are determined. */
  lemma Cramer(p: Point, q: Point, a: Point, b: Point, t: real, u: real)
    requires At(p, q, t) == At(a, b, u)
    ensures t * Denom(p, q, a, b) == OffWall(p, a, b)
    ensures u * Denom(p, q, a, b) == OffPath(p, q, a)
  {
    var rx, ry, sx, sy := q.x - p.x, q.y - p.y, b.x - a.x, b.y - a.y;
    var cx, cy := a.x - p.x, a.y - p.y;
    assert t * rx == cx + u * sx && t * ry == cy + u * sy;
    calc {
      t * (rx * sy - ry * sx);
      (t * rx) * sy - (t * ry) * sx;
      (cx + u * sx) * sy - (cy + u * sy) * sx;
      cx * sy - cy * sx;
    }
    calc {
      u * (rx * sy - ry * sx);
      rx * (u * sy) - ry * (u * sx);
      rx * (t * ry - cy) - ry * (t * rx - cx);
      cx * ry - cy * rx;
    }
  }

  lemma CrossIdentity(rx: real, ry: real, sx: real, sy: real, cx: real, cy: real)
    ensures rx * Cross(cx, cy, sx, sy) == Cross(rx, ry, sx, sy) * cx + Cross(cx, cy, rx, ry) * sx
    ensures ry * Cross(cx, cy, sx, sy) == Cross(rx, ry, sx, sy) * cy + Cross(cx, cy, rx, ry) * sy
  {
  }

  // With d = cross(r, s), o = cross(c, r), w = cross(c, s).
  lemma SolveOne(t: real, u: real, r: real, s: real, c: real, d: real, o: real, w: real)
    requires d != 0.0 && t * d == w && u * d == o && r * w == d * c + o * s
    ensures t * r == c + u * s
  {
    assert (t * r) * d == r * w;
    assert (c + u * s) * d == d * c + o * s by { assert (u * s) * d == (u * d) * s; }
    CancelBoth(t * r, c + u * s, d);
  }

  lemma CramerMeets(p: Point, q: Point, a: Point, b: Point, t: real, u: real)
    requires Denom(p, q, a, b) != 0.0
    requires t * Denom(p, q, a, b) == OffWall(p, a, b) && u * Denom(p, q, a, b) == OffPath(p, q, a)
    ensures At(p, q, t) == At(a, b, u)
  {
    hide Denom, OffPath, OffWall;
    PointIdentity(p, q, a, b);
    SolveOne(t, u, q.x - p.x, b.x - a.x, a.x - p.x, Denom(p, q, a, b), OffPath(p, q, a), OffWall(p, a, b));
    SolveOne(t, u, q.y - p.y, b.y - a.y, a.y - p.y, Denom(p, q, a, b), OffPath(p, q, a), OffWall(p, a, b));
  }

  lemma PointIdentity(p: Point, q: Point, a: Point, b: Point)
    ensures (q.x - p.x) * OffWall(p, a, b) == Denom(p, q, a, b) * (a.x - p.x) + OffPath(p, q, a) * (b.x - a.x)
    ensures (q.y - p.y) * OffWall(p, a, b) == Denom(p, q, a, b) * (a.y - p.y) + OffPath(p, q, a) * (b.y - a.y)
  {
    CrossIdentity(q.x - p.x, q.y - p.y, b.x - a.x, b.y - a.y, a.x - p.x, a.y - p.y);
    hide Cross;
  }

  lemma Cancel(x: real, d: real)
    requires d != 0.0 && x * d == 0.0
    ensures x == 0.0
  {
  }

  lemma CancelBoth(x: real, y: real, d: real)
    requires d != 0.0 && x * d == y * d
    ensures x == y
  {
    Cancel(x - y, d);
  }

  // Where the lines meet, by Cramer's rule, lies on both segments.
  predicate QuotientsInside(p: Point, q: Point, a: Point, b: Point)
    requires Denom(p, q, a, b) != 0.0
  {
    var t, u := OffWall(p, a, b) / Denom(p, q, a, b), OffPath(p, q, a) / Denom(p, q, a, b);
    0.0 <= t <= 1.0 && 0.0 <= u <= 1.0
  }

  /** Lines that are not parallel: the quotients decide, and the common point is unique. */
  lemma QuotientsDecide(p: Point, q: Point, a: Point, b: Point)
    requires Denom(p, q, a, b) != 0.0
    ensures QuotientsInside(p, q, a, b) <==> Common(p, q, a, b)
    ensures forall t, u, t2, u2 :: Meet(p, q, a, b, t, u) && Meet(p, q, a, b, t2, u2) ==> t == t2 && u == u2
  {
    hide Denom, OffWall, OffPath, At;
    var denom := Denom(p, q, a, b);
    var t, u := OffWall(p, a, b) / denom, OffPath(p, q, a) / denom;
    DivMul(OffWall(p, a, b), denom);
    DivMul(OffPath(p, q, a), denom);
    CramerMeets(p, q, a, b, t, u);
    forall t2, u2 | Meet(p, q, a, b, t2, u2) ensures t2 == t && u2 == u {
      Cramer(p, q, a, b, t2, u2);
      SameQuotient(t2, OffWall(p, a, b), denom);
      SameQuotient(u2, OffPath(p, q, a), denom);
    }
    if 0.0 <= t <= 1.0 && 0.0 <= u <= 1.0 { assert Meet(p, q, a, b, t, u); }
  }

  /** Off the parallel branch the test is exact. */
  lemma CrossingIsExact(p: Point, q: Point, a: Point, b: Point)
    requires Abs(Denom(p, q, a, b)) >= EPSILON
    ensures SegmentsIntersect(p, q, a, b) <==> Common(p, q, a, b)
    ensures forall t, u, t2, u2 :: Meet(p, q, a, b, t, u) && Meet(p, q, a, b, t2, u2) ==> t == t2 && u == u2
  {
    hide Denom, OffWall, OffPath, Common, Meet;
    QuotientsDecide(p, q, a, b);
  }

  /** Parallel or nearly so, with the wall's start clearly off the path: rightly refused. */
  lemma OffPathIsExact(p: Point, q: Point, a: Point, b: Point)
    requires Abs(Denom(p, q, a, b)) < EPSILON && Abs(OffPath(p, q, a)) > EPSILON
    ensures !SegmentsIntersect(p, q, a, b) && !Common(p, q, a, b)
  {
    forall t, u ensures !Meet(p, q, a, b, t, u) {
      if Meet(p, q, a, b, t, u) {
        Cramer(p, q, a, b, t, u);
        Smaller(u, Denom(p, q, a, b));
      }
    }
  }

  lemma Smaller(u: real, d: real)
    requires 0.0 <= u <= 1.0
    ensures Abs(u * d) <= Abs(d)
  {
    var v := 1.0 - u;
    assert u * d + v * d == d;
    ProductSign(u, d);
    ProductSign(v, d);
  }

  // A collinear wall in the path's own coordinate.
  lemma Collinear(p: Point, q: Point, a: Point, b: Point, t0: real, k: real, u: real)
    requires Denom(p, q, a, b) == 0.0 && OffPath(p, q, a) == 0.0 && LengthSq(p, q) > 0.0
    requires t0 * LengthSq(p, q) == Along(p, q, a) && k * LengthSq(p, q) == WallAlong(p, q, a, b)
    ensures At(a, b, u) == At(p, q, t0 + u * k)
  {
    hide LengthSq, Along, WallAlong, Denom, OffPath;
    StartProjects(p, q, a, t0);
    WallProjects(p, q, a, b, k);
    Distribute(t0, u, k, q.x - p.x);
    Distribute(t0, u, k, q.y - p.y);
  }

  lemma StartProjects(p: Point, q: Point, a: Point, t0: real)
    requires OffPath(p, q, a) == 0.0 && LengthSq(p, q) > 0.0 && t0 * LengthSq(p, q) == Along(p, q, a)
    ensures a.x - p.x == t0 * (q.x - p.x) && a.y - p.y == t0 * (q.y - p.y)
  {
    Project(q.x - p.x, q.y - p.y, a.x - p.x, a.y - p.y, t0, LengthSq(p, q));
    Project(q.y - p.y, q.x - p.x, a.y - p.y, a.x - p.x, t0, LengthSq(p, q));
  }

  lemma WallProjects(p: Point, q: Point, a: Point, b: Point, k: real)
    requires Denom(p, q, a, b) == 0.0 && LengthSq(p, q) > 0.0 && k * LengthSq(p, q) == WallAlong(p, q, a, b)
    ensures b.x - a.x == k * (q.x - p.x) && b.y - a.y == k * (q.y - p.y)
  {
    Project(q.x - p.x, q.y - p.y, b.x - a.x, b.y - a.y, k, LengthSq(p, q));
    Project(q.y - p.y, q.x - p.x, b.y - a.y, b.x - a.x, k, LengthSq(p, q));
  }

  lemma Distribute(t0: real, u: real, k: real, r: real)
    ensures (t0 + u * k) * r == t0 * r + u * (k * r)
  {
  }

  // A vector parallel to (rx, ry) is its projection.
  lemma Project(rx: real, ry: real, cx: real, cy: real, t: real, l: real)
    requires l == rx * rx + ry * ry && l > 0.0 && cx * ry == cy * rx && t * l == cx * rx + cy * ry
    ensures cx == t * rx
  {
    assert cx * l == rx * (cx * rx) + ry * (cx * ry);
    assert ry * (cx * ry) == ry * (cy * rx);
    assert rx * (t * l) == rx * (cx * rx) + rx * (cy * ry);
    assert (t * rx) * l == rx * (t * l);
    CancelBoth(cx, t * rx, l);
  }

  lemma SamePlace(p: Point, q: Point, t: real, v: real)
    requires LengthSq(p, q) > 0.0 && At(p, q, t) == At(p, q, v)
    ensures t == v
  {
    var rx, ry := q.x - p.x, q.y - p.y;
    assert (t - v) * rx == 0.0 && (t - v) * ry == 0.0;
    if rx != 0.0 { Cancel(t - v, rx); } else { Cancel(t - v, ry); }
  }

  lemma Between(t0: real, k: real) returns (u: real)
    requires var t1 := t0 + k; (if t0 <= t1 then t1 else t0) >= 0.0 && (if t0 <= t1 then t0 else t1) <= 1.0
    ensures 0.0 <= u <= 1.0 && 0.0 <= t0 + u * k <= 1.0
  {
    if 0.0 <= t0 <= 1.0 {
      u := 0.0;
    } else if 0.0 <= t0 + k <= 1.0 {
      u := 1.0;
    } else {
      u := (0.0 - t0) / k;
      DivMul(0.0 - t0, k);
      UnitQuotient(0.0 - t0, k);
    }
  }

  lemma UnitQuotient(n: real, d: real)
    requires (d > 0.0 && 0.0 <= n <= d) || (d < 0.0 && d <= n <= 0.0)
    ensures 0.0 <= n / d <= 1.0
  {
  }

  lemma Reached(t0: real, k: real, u: real)
    requires 0.0 <= u <= 1.0
    ensures (k >= 0.0 ==> t0 <= t0 + u * k <= t0 + k) && (k <= 0.0 ==> t0 + k <= t0 + u * k <= t0)
  {
    assert u * k + (1.0 - u) * k == k;
    ProductSign(u, k);
    ProductSign(1.0 - u, k);
  }

  /** Exactly collinear, on a path with a length however small: the projections decide. */
  lemma ProjectionsDecide(p: Point, q: Point, a: Point, b: Point)
    requires Denom(p, q, a, b) == 0.0 && OffPath(p, q, a) == 0.0 && LengthSq(p, q) > 0.0
    ensures Overlaps(p, q, a, b) <==> Common(p, q, a, b)
  {
    hide Along, WallAlong, LengthSq, Denom, OffPath, At;
    var l := LengthSq(p, q);
    var t0, k := Along(p, q, a) / l, WallAlong(p, q, a, b) / l;
    DivMul(Along(p, q, a), l);
    DivMul(WallAlong(p, q, a, b), l);
    if Overlaps(p, q, a, b) {
      var u := Between(t0, k);
      Collinear(p, q, a, b, t0, k, u);
      var t := t0 + u * k;
      assert At(p, q, t) == At(a, b, u);
      assert Meet(p, q, a, b, t, u);
    }
    forall t, u | Meet(p, q, a, b, t, u) ensures Overlaps(p, q, a, b) {
      Collinear(p, q, a, b, t0, k, u);
      SamePlace(p, q, t, t0 + u * k);
      Reached(t0, k, u);
      assert (t0 <= t <= t0 + k) || (t0 + k <= t <= t0);
    }
  }

  lemma ParallelApart(p: Point, q: Point, a: Point, b: Point)
    requires Denom(p, q, a, b) == 0.0 && OffPath(p, q, a) != 0.0
    ensures !Common(p, q, a, b)
  {
    hide Denom, OffPath, At;
    forall t, u ensures !Meet(p, q, a, b, t, u) {
      if Meet(p, q, a, b, t, u) { Cramer(p, q, a, b, t, u); }
    }
  }

  /** Exactly parallel, path with a length: true exactly when the segments meet, or when the wall lies beside
      the path at less than the tolerance and its projection meets it. */
  lemma ParallelWithTolerance(p: Point, q: Point, a: Point, b: Point)
    requires Denom(p, q, a, b) == 0.0 && LengthSq(p, q) >= EPSILON
    ensures SegmentsIntersect(p, q, a, b) <==>
              Common(p, q, a, b) || (0.0 < Abs(OffPath(p, q, a)) <= EPSILON && Overlaps(p, q, a, b))
  {
    hide Denom, OffPath, LengthSq, Overlaps;
    if OffPath(p, q, a) == 0.0 {
      ProjectionsDecide(p, q, a, b);
    } else {
      ParallelApart(p, q, a, b);
    }
  }

  // ---- Where it errs ---------------------------------------------------------------------

  /** A point on a closed segment, by its cross product and projection. */
  predicate OnWall(p: Point, a: Point, b: Point) {
    if LengthSq(a, b) > 0.0 then OffPath(a, b, p) == 0.0 && Overlaps(a, b, p, p) else p == a
  }

  lemma CommonSwap(p: Point, q: Point, a: Point, b: Point)
    requires Common(p, q, a, b)
    ensures Common(a, b, p, q)
  {
    hide At;
    var t, u :| Meet(p, q, a, b, t, u);
    assert Meet(a, b, p, q, u, t);
  }

  lemma NoLength(p: Point, q: Point)
    ensures LengthSq(p, q) >= 0.0 && (LengthSq(p, q) == 0.0 <==> p == q)
  {
    var x, y := q.x - p.x, q.y - p.y;
    assert LengthSq(p, q) == Square(x) + Square(y);
    SquareSign(x);
    SquareSign(y);
    SquareNonNeg(x);
    SquareNonNeg(y);
    hide Square, LengthSq;
  }

  lemma PointNumbers(p: Point, a: Point, b: Point)
    ensures Denom(a, b, p, p) == 0.0 && Denom(p, p, a, b) == 0.0 && OffPath(p, p, a) == 0.0
  {
  }

  lemma AtPoint(p: Point, t: real)
    ensures At(p, p, t) == p
  {
  }

  /** A path that is a point meets a wall exactly when the point lies on it. */
  lemma PointOnWall(p: Point, a: Point, b: Point)
    ensures OnWall(p, a, b) <==> Common(p, p, a, b)
  {
    hide Denom, OffPath, Overlaps, LengthSq, At, Common;
    PointNumbers(p, a, b);
    NoLength(a, b);
    if LengthSq(a, b) > 0.0 {
      if OffPath(a, b, p) == 0.0 { ProjectionsDecide(a, b, p, p); } else { ParallelApart(a, b, p, p); }
      if Common(p, p, a, b) { CommonSwap(p, p, a, b); }
      if Common(a, b, p, p) { CommonSwap(a, b, p, p); }
    } else {
      TwoPoints(p, a);
    }
  }

  lemma TwoPoints(p: Point, a: Point)
    ensures Common(p, p, a, a) <==> p == a
  {
    hide At;
    AtPoint(p, 0.0);
    AtPoint(a, 0.0);
    if p == a { assert Meet(p, p, a, a, 0.0, 0.0); }
    forall t, u | Meet(p, p, a, a, t, u) ensures p == a {
      AtPoint(p, t);
      AtPoint(a, u);
    }
  }

  /** The inputs the test gets wrong. All of them are in its parallel branch, within both tolerances: a wall
      beside a parallel path that overlaps it, an overlapping wall on a path shorter than the tolerance, a path
      that is a point on the wall, and nearly parallel lines where the projections and the quotients disagree. */
  predicate Errs(p: Point, q: Point, a: Point, b: Point) {
    Abs(Denom(p, q, a, b)) < EPSILON && Abs(OffPath(p, q, a)) <= EPSILON &&
    if Denom(p, q, a, b) != 0.0 then
      (LengthSq(p, q) >= EPSILON && Overlaps(p, q, a, b)) != QuotientsInside(p, q, a, b)
    else if LengthSq(p, q) >= EPSILON then OffPath(p, q, a) != 0.0 && Overlaps(p, q, a, b)
    else if LengthSq(p, q) > 0.0 then OffPath(p, q, a) == 0.0 && Overlaps(p, q, a, b)
    else OnWall(p, a, b)
  }

  /** For all inputs: `segments_intersect` says whether the closed segments share a point, except exactly where
      it errs. */
  lemma WrongExactlyWhere(p: Point, q: Point, a: Point, b: Point)
    ensures (SegmentsIntersect(p, q, a, b) <==> Common(p, q, a, b)) <==> !Errs(p, q, a, b)
  {
    hide Denom, OffPath, OffWall, LengthSq, Overlaps, Common, QuotientsInside, OnWall;
    if Abs(Denom(p, q, a, b)) >= EPSILON {
      CrossingIsExact(p, q, a, b);
    } else if Abs(OffPath(p, q, a)) > EPSILON {
      OffPathIsExact(p, q, a, b);
    } else if Denom(p, q, a, b) != 0.0 {
      QuotientsDecide(p, q, a, b);
    } else if LengthSq(p, q) > 0.0 {
      if OffPath(p, q, a) == 0.0 { ProjectionsDecide(p, q, a, b); } else { ParallelApart(p, q, a, b); }
    } else {
      NoLength(p, q);
      PointOnWall(p, a, b);
    }
  }

  /** A condition that is easier to check beforehand: clearly crossing directions, a wall clearly off a parallel
      path, or exactly collinear segments with a path that has a length. */
  predicate Reliable(p: Point, q: Point, a: Point, b: Point) {
    Abs(Denom(p, q, a, b)) >= EPSILON || Abs(OffPath(p, q, a)) > EPSILON ||
    (Denom(p, q, a, b) == 0.0 && OffPath(p, q, a) == 0.0 && LengthSq(p, q) >= EPSILON)
  }

  lemma IntersectsExactly(p: Point, q: Point, a: Point, b: Point)
    requires Reliable(p, q, a, b)
    ensures SegmentsIntersect(p, q, a, b) <==> Common(p, q, a, b)
  {
    hide Denom, OffPath, LengthSq, Overlaps, Common, QuotientsInside, SegmentsIntersect;
    WrongExactlyWhere(p, q, a, b);
  }

  // A wall half a tolerance beside a path of length one.
  const PATH_START := Point(0.0, 0.0)
  const PATH_END := Point(1.0, 0.0)
  const WALL_START := Point(0.0, 0.0000000005)
  const WALL_END := Point(1.0, 0.0000000005)

  lemma NearMissNumbers()
    ensures Denom(PATH_START, PATH_END, WALL_START, WALL_END) == 0.0
    ensures OffPath(PATH_START, PATH_END, WALL_START) == -0.0000000005
    ensures LengthSq(PATH_START, PATH_END) == 1.0
    ensures Along(PATH_START, PATH_END, WALL_START) == 0.0
    ensures WallAlong(PATH_START, PATH_END, WALL_START, WALL_END) == 1.0
  {
  }

  /** A wall beside the path, within the tolerance, counts as crossed: one of the inputs where it errs. */
  lemma NearMissCountsAsCrossed()
    ensures SegmentsIntersect(PATH_START, PATH_END, WALL_START, WALL_END)
    ensures !Common(PATH_START, PATH_END, WALL_START, WALL_END)
    ensures Errs(PATH_START, PATH_END, WALL_START, WALL_END)
  {
    hide Denom, OffPath, LengthSq, Along, WallAlong, Common;
    NearMissNumbers();
    ParallelApart(PATH_START, PATH_END, WALL_START, WALL_END);
    assert Overlaps(PATH_START, PATH_END, WALL_START, WALL_END);
  }

  /** And a path that is a point crosses nothing, so the test is wrong exactly when the point lies on the wall. */
  lemma PointPathCrossesNothing(p: Point, a: Point, b: Point)
    ensures !SegmentsIntersect(p, p, a, b)
    ensures Errs(p, p, a, b) <==> OnWall(p, a, b)
    ensures Common(p, p, a, b) <==> OnWall(p, a, b)
  {
    hide Denom, OffPath, OffWall, LengthSq, Overlaps, Common, OnWall;
    PointNumbers(p, a, b);
    NoLength(p, p);
    PointOnWall(p, a, b);
  }

  // ---- Symmetry --------------------------------------------------------------------------

  lemma Swapped(p: Point, q: Point, a: Point, b: Point)
    ensures Denom(q, p, a, b) == -Denom(p, q, a, b)
    ensures OffPath(q, p, a) == -OffPath(p, q, a)
    ensures OffWall(q, a, b) == OffWall(p, a, b) - Denom(p, q, a, b)
    ensures LengthSq(q, p) == LengthSq(p, q)
    ensures Along(q, p, a) == LengthSq(p, q) - Along(p, q, a)
    ensures WallAlong(q, p, a, b) == -WallAlong(p, q, a, b)
  {
  }

  lemma NegQuotient(n: real, d: real)
    requires d != 0.0
    ensures (-n) / (-d) == n / d && (-n) / d == -(n / d) && (d - n) / d == 1.0 - n / d && (n - d) / (-d) == 1.0 - n / d
  {
    DivMul(n, d);
    var x := n / d;
    SameQuotient(x, -n, -d);
    SameQuotient(-x, -n, d);
    SameQuotient(1.0 - x, d - n, d);
    SameQuotient(1.0 - x, n - d, -d);
  }

  /** The test does not depend on the direction of the path. */
  lemma IntersectsEitherWay(p: Point, q: Point, a: Point, b: Point)
    ensures SegmentsIntersect(q, p, a, b) <==> SegmentsIntersect(p, q, a, b)
  {
    Swapped(p, q, a, b);
    var d, l := Denom(p, q, a, b), LengthSq(p, q);
    if Abs(d) < EPSILON {
      if l >= EPSILON {
        NegQuotient(Along(p, q, a), l);
        NegQuotient(WallAlong(p, q, a, b), l);
      }
    } else {
      NegQuotient(OffWall(p, a, b), d);
      NegQuotient(OffPath(p, q, a), d);
    }
  }

  // ---- Slant -----------------------------------------------------------------------------

  /** What `math.hypot` is for. */
  ghost predicate IsHypot(hypot: (real, real) -> real) {
    forall x, y :: hypot(x, y) >= 0.0 && hypot(x, y) * hypot(x, y) == x * x + y * y
  }

  function ObliqueFactor(cos: real): real { if cos < 1.0 / MAX_OBLIQUE_FACTOR then MAX_OBLIQUE_FACTOR else 1.0 / cos }

  function SlantFactor(line: real, wall: real, cross: real): real {
    if line < EPSILON || wall < EPSILON then 1.0
    else
      assert line * wall > 0.0 by { ProductSign(line, wall); }
      ObliqueFactor(cross / (line * wall))
  }

  function SegmentFactor(hypot: (real, real) -> real, p: Point, q: Point, a: Point, b: Point): real {
    SlantFactor(hypot(q.x - p.x, q.y - p.y), hypot(b.x - a.x, b.y - a.y), Abs(Denom(p, q, a, b)))
  }

  lemma SquareOrder(x: real, y: real)
    requires x >= 0.0 && y >= 0.0
    ensures x * x <= y * y <==> x <= y
  {
    assert y * y - x * x == (y - x) * (y + x);
    ProductSign(y - x, y + x);
    ProductSign(x - y, x + y);
    assert (x - y) * (x + y) == -((y - x) * (y + x));
  }

  /** Cauchy-Schwarz, through Lagrange's identity. */
  lemma CauchySchwarz(hypot: (real, real) -> real, ax: real, ay: real, wx: real, wy: real)
    requires IsHypot(hypot)
    ensures Abs(Cross(ax, ay, wx, wy)) <= hypot(ax, ay) * hypot(wx, wy)
  {
    var c, d := Cross(ax, ay, wx, wy), ax * wx + ay * wy;
    var m, n := hypot(ax, ay), hypot(wx, wy);
    assert (ax * ax + ay * ay) * (wx * wx + wy * wy) == c * c + d * d;
    assert (m * n) * (m * n) == (m * m) * (n * n);
    ProductSign(d, d);
    ProductSign(m, n);
    assert Abs(c) * Abs(c) == c * c;
    SquareOrder(Abs(c), m * n);
  }

  lemma ObliqueBounds(cos: real)
    ensures 0.0 < ObliqueFactor(cos) <= MAX_OBLIQUE_FACTOR
    ensures ObliqueFactor(cos) >= 1.0 <==> cos <= 1.0
  {
    if cos >= 1.0 / MAX_OBLIQUE_FACTOR {
      DivMul(1.0, cos);
      var f := 1.0 / cos;
      ObliqueInverse(cos, f);
    }
  }

  lemma ObliqueInverse(cos: real, f: real)
    requires f * cos == 1.0 && 3.0 * cos >= 1.0
    ensures 0.0 < f <= 3.0 && (f >= 1.0 <==> cos <= 1.0)
  {
    assert (3.0 - f) * cos == 3.0 * cos - f * cos;
    FactorSign(3.0 - f, cos);
    assert (f - 1.0) * cos == f * cos - cos;
    FactorSign(f - 1.0, cos);
    FactorSign(f, cos);
  }

  lemma QuotientAtMostOne(n: real, d: real)
    requires d > 0.0 && n <= d
    ensures n / d <= 1.0
  {
  }

  lemma SlantBounds(line: real, wall: real, cross: real)
    requires cross <= line * wall
    ensures 1.0 <= SlantFactor(line, wall, cross) <= MAX_OBLIQUE_FACTOR
  {
    hide ObliqueFactor;
    if line >= EPSILON && wall >= EPSILON {
      SlantIs(line, wall, cross);
      QuotientAtMostOne(cross, line * wall);
      ObliqueBounds(cross / (line * wall));
    }
  }

  lemma SlantIs(line: real, wall: real, cross: real)
    requires line >= EPSILON && wall >= EPSILON
    ensures line * wall > 0.0 && SlantFactor(line, wall, cross) == ObliqueFactor(cross / (line * wall))
  {
    ProductSign(line, wall);
  }

  /** A slanted crossing costs between one and three times the square-on one. */
  lemma FactorBounds(hypot: (real, real) -> real, p: Point, q: Point, a: Point, b: Point)
    requires IsHypot(hypot)
    ensures 1.0 <= SegmentFactor(hypot, p, q, a, b) <= MAX_OBLIQUE_FACTOR
  {
    hide IsHypot, SlantFactor, Cross;
    CauchySchwarz(hypot, q.x - p.x, q.y - p.y, b.x - a.x, b.y - a.y);
    SlantBounds(hypot(q.x - p.x, q.y - p.y), hypot(b.x - a.x, b.y - a.y), Abs(Denom(p, q, a, b)));
  }

  lemma HypotNeg(hypot: (real, real) -> real, x: real, y: real)
    requires IsHypot(hypot)
    ensures hypot(-x, -y) == hypot(x, y)
  {
    SquareOrder(hypot(-x, -y), hypot(x, y));
    SquareOrder(hypot(x, y), hypot(-x, -y));
  }

  lemma FactorEitherWay(hypot: (real, real) -> real, p: Point, q: Point, a: Point, b: Point)
    requires IsHypot(hypot)
    ensures SegmentFactor(hypot, q, p, a, b) == SegmentFactor(hypot, p, q, a, b)
  {
    hide Denom, SlantFactor, IsHypot;
    Swapped(p, q, a, b);
    HypotNeg(hypot, q.x - p.x, q.y - p.y);
    assert p.x - q.x == -(q.x - p.x) && p.y - q.y == -(q.y - p.y);
    assert hypot(p.x - q.x, p.y - q.y) == hypot(q.x - p.x, q.y - p.y);
    assert Abs(Denom(q, p, a, b)) == Abs(Denom(p, q, a, b));
  }

  function Square(x: real): real { x * x }

  lemma SquareOrdered(x: real, y: real)
    requires x >= 0.0 && y >= 0.0
    ensures Square(x) <= Square(y) <==> x <= y
  {
    SquareOrder(x, y);
  }

  lemma SquareAbove(d: real)
    requires d > 0.0
    ensures Square(d) > 0.0
  {
    Positive(d, d, Square(d));
  }

  lemma Positive(d: real, e: real, product: real)
    requires d > 0.0 && e > 0.0 && product == d * e
    ensures product > 0.0
  {
    assert d * e > 0.0;
  }

  lemma SquareSign(d: real)
    ensures Square(d) > 0.0 <==> d != 0.0
  {
    if d == 0.0 {
      assert Square(d) == 0.0;
    } else {
      SquareAbove(Abs(d));
      assert Square(d) == Square(Abs(d));
    }
  }

  lemma LongerThan(c: real, d: real, m: real)
    requires c >= 0.0 && m > 0.0 && Square(m) == Square(c) + Square(d)
    ensures c <= m && (c == m <==> d == 0.0)
  {
    hide Square;
    SquareOrdered(c, m);
    SquareOrdered(m, c);
    SquareSign(d);
    SquareNonNeg(d);
  }

  lemma SquareNonNeg(d: real)
    ensures Square(d) >= 0.0
  {
  }

  // With c^2 + d^2 = m^2, the slant c / m costs nothing exactly when d is zero.
  lemma NoSlant(c: real, d: real, m: real)
    requires c >= 0.0 && m > 0.0 && Square(m) == Square(c) + Square(d)
    ensures ObliqueFactor(c / m) == 1.0 <==> d == 0.0
  {
    LongerThan(c, d, m);
    DivMul(c, m);
    var cos := c / m;
    if d == 0.0 {
      SameQuotient(1.0, c, m);
    } else {
      assert (cos - 1.0) * m == c - m;
      FactorSign(cos - 1.0, m);
      assert cos < 1.0;
      if 3.0 * cos >= 1.0 { DivMul(1.0, cos); }
    }
  }

  /** Square-on and only then, a wall costs exactly its own loss. */
  lemma SquareOnCostsOnce(hypot: (real, real) -> real, p: Point, q: Point, a: Point, b: Point)
    requires IsHypot(hypot) && hypot(q.x - p.x, q.y - p.y) >= EPSILON && hypot(b.x - a.x, b.y - a.y) >= EPSILON
    ensures SegmentFactor(hypot, p, q, a, b) == 1.0 <==> WallAlong(p, q, a, b) == 0.0
  {
    hide ObliqueFactor, IsHypot, LengthSq, WallAlong, Denom;
    var m, n := hypot(q.x - p.x, q.y - p.y), hypot(b.x - a.x, b.y - a.y);
    var c, d := Denom(p, q, a, b), WallAlong(p, q, a, b);
    Lagrange(p, q, a, b);
    HypotSquares(hypot, p, q);
    HypotSquares(hypot, a, b);
    SquareOfProduct(m, n, LengthSq(p, q), LengthSq(a, b));
    assert Abs(c) * Abs(c) == c * c;
    var mn := m * n;
    assert mn * mn == Abs(c) * Abs(c) + d * d;
    NoSlant(Abs(c), d, mn);
    SlantIs(m, n, Abs(c));
  }

  lemma SquareOfProduct(m: real, n: real, x: real, y: real)
    requires m * m == x && n * n == y && m >= EPSILON && n >= EPSILON
    ensures (m * n) * (m * n) == x * y && m * n > 0.0
  {
    assert (m * n) * (m * n) == (m * m) * (n * n);
    ProductSign(m, n);
  }

  lemma Lagrange(p: Point, q: Point, a: Point, b: Point)
    ensures LengthSq(p, q) * LengthSq(a, b) ==
            Denom(p, q, a, b) * Denom(p, q, a, b) + WallAlong(p, q, a, b) * WallAlong(p, q, a, b)
  {
  }

  lemma HypotSquares(hypot: (real, real) -> real, p: Point, q: Point)
    requires IsHypot(hypot)
    ensures var m := hypot(q.x - p.x, q.y - p.y); m * m == LengthSq(p, q)
  {
  }

  // ---- The crossing point --------------------------------------------------------------------

  function CrossingPoint(p: Point, q: Point, a: Point, b: Point): Point {
    var denom := Denom(p, q, a, b);
    if Abs(denom) < EPSILON then Point((a.x + b.x) / 2.0, (a.y + b.y) / 2.0)
    else At(p, q, OffWall(p, a, b) / denom)
  }

  lemma FromOtherEnd(x: real, y: real, t: real)
    ensures y + (1.0 - t) * (x - y) == x + t * (y - x)
  {
  }

  lemma ParameterEitherWay(p: Point, q: Point, a: Point, b: Point)
    requires Denom(p, q, a, b) != 0.0
    ensures Denom(q, p, a, b) == -Denom(p, q, a, b)
    ensures OffWall(q, a, b) / Denom(q, p, a, b) == 1.0 - OffWall(p, a, b) / Denom(p, q, a, b)
  {
    hide Denom, OffWall;
    Swapped(p, q, a, b);
    NegQuotient(OffWall(p, a, b), Denom(p, q, a, b));
  }

  lemma PointEitherWay(p: Point, q: Point, a: Point, b: Point)
    ensures CrossingPoint(q, p, a, b) == CrossingPoint(p, q, a, b)
  {
    hide Denom, OffWall;
    if Denom(p, q, a, b) != 0.0 {
      ParameterEitherWay(p, q, a, b);
      var t := OffWall(p, a, b) / Denom(p, q, a, b);
      FromOtherEnd(p.x, q.x, t);
      FromOtherEnd(p.y, q.y, t);
      assert At(q, p, 1.0 - t) == At(p, q, t);
    } else {
      Swapped(p, q, a, b);
    }
  }

  /** The crossing point of a crossed wall is the point the segments share. */
  lemma CrossingPointIsCommon(p: Point, q: Point, a: Point, b: Point)
    requires Abs(Denom(p, q, a, b)) >= EPSILON && SegmentsIntersect(p, q, a, b)
    ensures exists t, u :: Meet(p, q, a, b, t, u) && CrossingPoint(p, q, a, b) == At(p, q, t) == At(a, b, u)
  {
    CrossingIsExact(p, q, a, b);
    var t, u :| Meet(p, q, a, b, t, u);
    Cramer(p, q, a, b, t, u);
    SameQuotient(t, OffWall(p, a, b), Denom(p, q, a, b));
    assert Meet(p, q, a, b, t, u) && CrossingPoint(p, q, a, b) == At(p, q, t) == At(a, b, u);
  }
}
