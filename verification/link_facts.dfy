/** What a priced mesh link says, from the positions of its two devices and the walls between them: each field as the
    distance, the counts and the losses it stands for, up to its own rounding. */
module LinkFacts {
  import opened Registry
  import opened Sequences
  import opened Geometry
  import opened Links

  // ---- Slant -----------------------------------------------------------------------------------

  /** The multiplier of a slab passed at a cosine of `part / whole` to its normal: the inverse, at most three. */
  predicate Oblique(part: real, whole: real, f: real) {
    if 3.0 * part < whole then f == 3.0 else f * part == whole
  }

  lemma ObliqueIs(part: real, whole: real)
    requires whole > 0.0 && part >= 0.0
    ensures Oblique(part, whole, ObliqueFactor(part / whole))
  {
    var cos := part / whole;
    DivMul(part, whole);
    if 3.0 * part < whole {
      assert (1.0 - 3.0 * cos) * whole == whole - 3.0 * part;
      FactorSign(1.0 - 3.0 * cos, whole);
    } else {
      assert (3.0 * cos - 1.0) * whole == 3.0 * part - whole;
      FactorSign(3.0 * cos - 1.0, whole);
      DivMul(1.0, cos);
      var f := 1.0 / cos;
      Regrouped(f, cos, whole);
    }
  }

  lemma Regrouped(f: real, cos: real, whole: real)
    requires f * cos == 1.0
    ensures f * (cos * whole) == whole
  {
    assert f * (cos * whole) == (f * cos) * whole;
  }

  predicate Slanting(line: real, wall: real, cross: real, f: real) {
    if line < 0.000000001 || wall < 0.000000001 then f == 1.0
    else Oblique(if cross < 0.0 then -cross else cross, line * wall, f)
  }

  /** The multiplier of a wall segment: by the sine of the angle between path and wall, 1 for a negligible one. */
  predicate WallSlant(hypot: (real, real) -> real, p: Point, q: Point, a: Point, b: Point, f: real) {
    Slanting(hypot(q.x - p.x, q.y - p.y), hypot(b.x - a.x, b.y - a.y),
             (q.x - p.x) * (b.y - a.y) - (q.y - p.y) * (b.x - a.x), f)
  }

  lemma SlantingIs(line: real, wall: real, cross: real)
    ensures Slanting(line, wall, cross, SlantFactor(line, wall, Abs(cross)))
  {
    hide Oblique, ObliqueFactor;
    if line >= EPSILON && wall >= EPSILON {
      SlantIs(line, wall, Abs(cross));
      ObliqueIs(Abs(cross), line * wall);
    }
  }

  lemma WallSlantIs(hypot: (real, real) -> real, p: Point, q: Point, a: Point, b: Point)
    ensures WallSlant(hypot, p, q, a, b, SegmentFactor(hypot, p, q, a, b))
  {
    hide Slanting, SlantFactor;
    var cross := (q.x - p.x) * (b.y - a.y) - (q.y - p.y) * (b.x - a.x);
    assert cross == Denom(p, q, a, b);
    SlantingIs(hypot(q.x - p.x, q.y - p.y), hypot(b.x - a.x, b.y - a.y), cross);
  }

  /** The multiplier of a floor slab on a path of some length that rises by `dz`. */
  predicate SlabSlant(distance: real, dz: real, f: real) {
    if distance < 0.000000001 then f == 1.0 else Oblique(if dz < 0.0 then -dz else dz, distance, f)
  }

  lemma SlabSlantIs(distance: real, dz: real)
    ensures SlabSlant(distance, dz, SlabFactor(distance, dz))
  {
    if distance >= EPSILON { ObliqueIs(Abs(dz), distance); }
  }

  // ---- One wall --------------------------------------------------------------------------------

  /** The path meets the wall's i-th segment. */
  predicate Met(p: Point, q: Point, w: Wall, i: nat) {
    i + 1 < |w.xs| && i + 1 < |w.ys| &&
    SegmentsIntersect(p, q, Point(w.xs[i], w.ys[i]), Point(w.xs[i + 1], w.ys[i + 1]))
  }

  ghost predicate FirstMet(p: Point, q: Point, w: Wall, i: nat) {
    Met(p, q, w, i) && forall j: nat :: j < i ==> !Met(p, q, w, j)
  }

  ghost predicate Crossed(p: Point, q: Point, w: Wall) { exists i: nat :: Met(p, q, w, i) }

  /** Where the path passes a segment it meets: their common point, the segment's middle if they are parallel. */
  ghost predicate PassedAt(p: Point, q: Point, a: Point, b: Point, at: Point) {
    if Abs(Denom(p, q, a, b)) < 0.000000001 then 2.0 * at.x == a.x + b.x && 2.0 * at.y == a.y + b.y
    else exists t, u :: Meet(p, q, a, b, t, u) && at == At(p, q, t) == At(a, b, u)
  }

  /** The point lies within the wall's n-th opening, a door or a window: at most half a width from its centre. */
  predicate Within(hypot: (real, real) -> real, w: Wall, at: Point, n: nat) {
    n < |w.kinds| && n < |w.openingXs| && n < |w.openingYs| && n < |w.widths| && w.kinds[n] in {"door", "window"} &&
    2.0 * hypot(at.x - w.openingXs[n], at.y - w.openingYs[n]) <= w.widths[n]
  }

  ghost predicate FirstWithin(hypot: (real, real) -> real, w: Wall, at: Point, n: nat) {
    Within(hypot, w, at, n) && forall j: nat :: j < n ==> !Within(hypot, w, at, j)
  }

  /** The loss of a square-on pass at a point: 3 dB through a door, 2 dB through a window, else what the wall
      attenuates; `opening` names which. */
  ghost predicate Charged(hypot: (real, real) -> real, w: Wall, at: Point, base: real, opening: Option<string>) {
    (opening.Some? <==> exists n: nat :: FirstWithin(hypot, w, at, n)) &&
    (forall n: nat :: FirstWithin(hypot, w, at, n) ==>
       opening == Some(w.kinds[n]) && base == if w.kinds[n] == "door" then 3.0 else 2.0) &&
    (opening.None? ==> base == if w.attenuation.Some? then w.attenuation.value else 0.0)
  }

  /** What passing a wall costs: the loss where the path passes the first segment it meets, times the slant. */
  ghost predicate CostsAt(hypot: (real, real) -> real, p: Point, q: Point, w: Wall, i: nat, loss: real,
                          opening: Option<string>)
    requires i + 1 < |w.xs| && i + 1 < |w.ys|
  {
    var a, b := Point(w.xs[i], w.ys[i]), Point(w.xs[i + 1], w.ys[i + 1]);
    exists at, base, f :: PassedAt(p, q, a, b, at) && Charged(hypot, w, at, base, opening) &&
                          WallSlant(hypot, p, q, a, b, f) && loss == base * f
  }

  ghost predicate Costs(hypot: (real, real) -> real, p: Point, q: Point, w: Wall, loss: real, opening: Option<string>) {
    exists i: nat :: FirstMet(p, q, w, i) && CostsAt(hypot, p, q, w, i, loss, opening)
  }

  lemma PassedAtIs(p: Point, q: Point, a: Point, b: Point)
    requires SegmentsIntersect(p, q, a, b)
    ensures PassedAt(p, q, a, b, CrossingPoint(p, q, a, b))
  {
    hide SegmentsIntersect, Denom;
    if Abs(Denom(p, q, a, b)) >= EPSILON { CrossingPointIsCommon(p, q, a, b); }
  }

  lemma {:induction false} FromIs(hypot: (real, real) -> real, w: Wall, at: Point, i: nat)
    requires i <= OpeningCount(w) && forall j: nat :: j < i ==> !Within(hypot, w, at, j)
    ensures var opening := OpeningFrom(hypot, w, at, i);
            if opening.Some? then exists n: nat :: FirstWithin(hypot, w, at, n) && opening == Some(w.kinds[n])
            else forall n: nat :: !Within(hypot, w, at, n)
    decreases OpeningCount(w) - i
  {
    if i < OpeningCount(w) {
      assert InOpening(hypot, w, at, i) <==> Within(hypot, w, at, i);
      if InOpening(hypot, w, at, i) { assert FirstWithin(hypot, w, at, i); } else { FromIs(hypot, w, at, i + 1); }
    }
  }

  lemma OnlyFirst(hypot: (real, real) -> real, w: Wall, at: Point, n: nat, m: nat)
    requires FirstWithin(hypot, w, at, n) && FirstWithin(hypot, w, at, m)
    ensures n == m
  {
    hide Within;
  }

  lemma ChargedIs(hypot: (real, real) -> real, w: Wall, at: Point)
    ensures var opening := OpeningFrom(hypot, w, at, 0); Charged(hypot, w, at, Base(w, opening), opening)
  {
    FromIs(hypot, w, at, 0);
    var opening := OpeningFrom(hypot, w, at, 0);
    hide OpeningFrom;
    if opening.Some? {
      var n: nat :| FirstWithin(hypot, w, at, n) && opening == Some(w.kinds[n]);
      forall m: nat | FirstWithin(hypot, w, at, m) ensures m == n { OnlyFirst(hypot, w, at, n, m); }
    }
  }

  lemma CostsAtIs(hypot: (real, real) -> real, p: Point, q: Point, w: Wall, i: nat)
    requires Met(p, q, w, i) && i + 1 < PointCount(w)
    ensures var d := DetailOf(hypot, p, q, w, i); d.id == w.id && CostsAt(hypot, p, q, w, i, d.loss, d.opening)
  {
    hide SegmentsIntersect, SegmentFactor, CrossingPoint, OpeningFrom, Base, WallSlant, PassedAt, Charged;
    var a, b := Point(w.xs[i], w.ys[i]), Point(w.xs[i + 1], w.ys[i + 1]);
    var at := CrossingPoint(p, q, a, b);
    PassedAtIs(p, q, a, b);
    ChargedIs(hypot, w, at);
    WallSlantIs(hypot, p, q, a, b);
  }

  /** A wall is listed once if the path crosses it, not at all otherwise, and at what passing it costs. */
  lemma WallIs(hypot: (real, real) -> real, p: Point, q: Point, w: Wall)
    ensures var found := DetailFor(hypot, p, q, w);
            if Crossed(p, q, w)
            then |found| == 1 && found[0].id == w.id && Costs(hypot, p, q, w, found[0].loss, found[0].opening)
            else found == []
  {
    hide SegmentsIntersect, DetailOf, CostsAt;
    var hit := FirstHit(p, q, w, 0);
    forall j: nat ensures Met(p, q, w, j) <==> j + 1 < PointCount(w) && Hits(p, q, w, j) { }
    if hit.Some? {
      assert FirstMet(p, q, w, hit.value);
      CostsAtIs(hypot, p, q, w, hit.value);
    }
  }

  /** A wall is passed through one of its openings. */
  ghost predicate Opened(hypot: (real, real) -> real, p: Point, q: Point, w: Wall) {
    exists loss, kind :: Costs(hypot, p, q, w, loss, Some(kind))
  }

  // ---- All walls of a floor --------------------------------------------------------------------

  ghost function CrossedWalls(p: Point, q: Point, walls: seq<Wall>): set<nat> {
    set i: nat | i < |walls| && Crossed(p, q, walls[i])
  }

  ghost function OpenedWalls(hypot: (real, real) -> real, p: Point, q: Point, walls: seq<Wall>): set<nat> {
    set i: nat | i < |walls| && Crossed(p, q, walls[i]) && Opened(hypot, p, q, walls[i])
  }

  /** What a wall adds to a path: nothing if it is not crossed. */
  ghost predicate Adds(hypot: (real, real) -> real, p: Point, q: Point, w: Wall, loss: real) {
    if Crossed(p, q, w) then exists opening :: Costs(hypot, p, q, w, loss, opening) else loss == 0.0
  }

  /** `sums[i]` is what the walls from the i-th on cost. */
  ghost predicate CostSums(hypot: (real, real) -> real, p: Point, q: Point, walls: seq<Wall>, sums: seq<real>) {
    |sums| == |walls| + 1 && sums[|walls|] == 0.0 &&
    forall i :: 0 <= i < |walls| ==> Adds(hypot, p, q, walls[i], sums[i] - sums[i + 1])
  }

  lemma PassedOnce(p: Point, q: Point, a: Point, b: Point, x: Point, y: Point)
    requires PassedAt(p, q, a, b, x) && PassedAt(p, q, a, b, y)
    ensures x == y
  {
    hide Denom, Meet, At, SegmentsIntersect, Common;
    if Abs(Denom(p, q, a, b)) >= EPSILON {
      var t, u :| Meet(p, q, a, b, t, u) && x == At(p, q, t) == At(a, b, u);
      var s, v :| Meet(p, q, a, b, s, v) && y == At(p, q, s) == At(a, b, v);
      CrossingIsExact(p, q, a, b);
    }
  }

  lemma MetOnce(p: Point, q: Point, w: Wall, i: nat, j: nat)
    requires FirstMet(p, q, w, i) && FirstMet(p, q, w, j)
    ensures i == j
  {
    hide Met;
  }

  lemma OneOpening(hypot: (real, real) -> real, w: Wall, at: Point, b: real, c: real, x: Option<string>,
                   y: Option<string>)
    requires Charged(hypot, w, at, b, x) && Charged(hypot, w, at, c, y)
    ensures x == y && b == c
  {
    hide FirstWithin;
  }

  /** What passing a wall costs, and which opening the path takes, is determined. */
  lemma CostsOnce(hypot: (real, real) -> real, p: Point, q: Point, w: Wall, l: real, x: Option<string>, m: real,
                  y: Option<string>)
    requires Costs(hypot, p, q, w, l, x) && Costs(hypot, p, q, w, m, y)
    ensures x == y
  {
    hide SegmentsIntersect, PassedAt, Charged, WallSlant;
    var i: nat :| FirstMet(p, q, w, i) && CostsAt(hypot, p, q, w, i, l, x);
    var j: nat :| FirstMet(p, q, w, j) && CostsAt(hypot, p, q, w, j, m, y);
    MetOnce(p, q, w, i, j);
    var a, b := Point(w.xs[i], w.ys[i]), Point(w.xs[i + 1], w.ys[i + 1]);
    var at, base, f :| PassedAt(p, q, a, b, at) && Charged(hypot, w, at, base, x) &&
                       WallSlant(hypot, p, q, a, b, f) && l == base * f;
    var at2, base2, f2 :| PassedAt(p, q, a, b, at2) && Charged(hypot, w, at2, base2, y) &&
                          WallSlant(hypot, p, q, a, b, f2) && m == base2 * f2;
    PassedOnce(p, q, a, b, at, at2);
    OneOpening(hypot, w, at, base, base2, x, y);
  }

  lemma {:induction false} Shifted(s: set<nat>, next: set<nat>)
    requires forall i: nat :: i in s <==> i + 1 in next
    requires 0 !in next
    ensures |s| == |next|
    decreases next
  {
    if next == {} {
      assert s == {};
    } else {
      var i :| i in next;
      Shifted(s - {i - 1}, next - {i});
    }
  }

  lemma CountNext(all: set<nat>, rest: set<nat>)
    requires forall i: nat :: i in rest <==> i + 1 in all
    ensures |all| == |rest| + if 0 in all then 1 else 0
  {
    Shifted(rest, all - {0});
  }

  lemma CrossedNext(p: Point, q: Point, walls: seq<Wall>)
    requires walls != []
    ensures |CrossedWalls(p, q, walls)| == |CrossedWalls(p, q, walls[1..])| + if Crossed(p, q, walls[0]) then 1 else 0
  {
    hide Crossed;
    forall i: nat ensures i in CrossedWalls(p, q, walls[1..]) <==> i + 1 in CrossedWalls(p, q, walls) {
      if i < |walls[1..]| { assert walls[1..][i] == walls[i + 1]; }
    }
    CountNext(CrossedWalls(p, q, walls), CrossedWalls(p, q, walls[1..]));
  }

  lemma OpenedNext(hypot: (real, real) -> real, p: Point, q: Point, walls: seq<Wall>)
    requires walls != []
    ensures |OpenedWalls(hypot, p, q, walls)| == |OpenedWalls(hypot, p, q, walls[1..])| +
              if Crossed(p, q, walls[0]) && Opened(hypot, p, q, walls[0]) then 1 else 0
  {
    hide Crossed, Opened;
    var all, rest := OpenedWalls(hypot, p, q, walls), OpenedWalls(hypot, p, q, walls[1..]);
    forall i: nat ensures i in rest <==> i + 1 in all {
      if i < |walls[1..]| { assert walls[1..][i] == walls[i + 1]; }
    }
    CountNext(all, rest);
  }

  /** An opening is never named by the empty string. */
  lemma OpeningNamed(hypot: (real, real) -> real, p: Point, q: Point, w: Wall, loss: real, opening: Option<string>)
    requires Costs(hypot, p, q, w, loss, opening)
    ensures opening.Some? ==> opening.value != "" && Opened(hypot, p, q, w)
    ensures opening.None? ==> !Opened(hypot, p, q, w)
  {
    hide SegmentsIntersect, PassedAt, WallSlant;
    if opening.Some? {
      var i: nat :| FirstMet(p, q, w, i) && CostsAt(hypot, p, q, w, i, loss, opening);
    } else if Opened(hypot, p, q, w) {
      var l, kind :| Costs(hypot, p, q, w, l, Some(kind));
      CostsOnce(hypot, p, q, w, loss, opening, l, Some(kind));
    }
  }

  /** The listed crossings, counted and added up, are those of the floor's walls. */
  lemma {:induction false} WallsAre(hypot: (real, real) -> real, p: Point, q: Point, walls: seq<Wall>)
    returns (sums: seq<real>)
    ensures var details := Details(hypot, p, q, walls);
            CostSums(hypot, p, q, walls, sums) && sums[0] == Total(details) &&
            |details| == |CrossedWalls(p, q, walls)| && Openings(details) == |OpenedWalls(hypot, p, q, walls)|
    decreases |walls|
  {
    hide Crossed, Opened, Costs, DetailFor;
    if walls == [] {
      sums := [0.0];
      assert CrossedWalls(p, q, walls) == {} && OpenedWalls(hypot, p, q, walls) == {};
    } else {
      var rest := WallsAre(hypot, p, q, walls[1..]);
      WallIs(hypot, p, q, walls[0]);
      var found, details := DetailFor(hypot, p, q, walls[0]), Details(hypot, p, q, walls[1..]);
      CrossedNext(p, q, walls);
      OpenedNext(hypot, p, q, walls);
      if Crossed(p, q, walls[0]) { OpeningNamed(hypot, p, q, walls[0], found[0].loss, found[0].opening); }
      sums := AddedTo(hypot, p, q, walls, found, details, rest);
    }
  }

  lemma AddedTo(hypot: (real, real) -> real, p: Point, q: Point, walls: seq<Wall>, found: seq<Detail>,
                details: seq<Detail>, rest: seq<real>)
    returns (sums: seq<real>)
    requires walls != [] && CostSums(hypot, p, q, walls[1..], rest) && rest[0] == Total(details)
    requires if Crossed(p, q, walls[0])
             then |found| == 1 && Costs(hypot, p, q, walls[0], found[0].loss, found[0].opening) else found == []
    ensures CostSums(hypot, p, q, walls, sums) && sums[0] == Total(found + details)
    ensures Openings(found + details) ==
            Openings(details) + if found != [] && found[0].opening.Some? && found[0].opening.value != "" then 1 else 0
  {
    hide Crossed, Costs;
    sums := [Total(found + details)] + rest;
    if found != [] {
      assert (found + details)[1..] == details && found[1..] == [];
    } else {
      assert found + details == details;
    }
    assert Adds(hypot, p, q, walls[0], sums[0] - sums[1]);
    forall i | 0 <= i < |walls| ensures Adds(hypot, p, q, walls[i], sums[i] - sums[i + 1]) {
      if i > 0 { assert Adds(hypot, p, q, walls[1..][i - 1], rest[i - 1] - rest[i]); }
    }
  }

  // ---- Links -----------------------------------------------------------------------------------

  /** `y` is `x` to the nearest multiple of 1 / step. */
  predicate Near(y: real, x: real, step: real) {
    (y * step).Floor as real == y * step && 2.0 * step * Abs(y - x) <= 1.0
  }

  /** The free-space loss of the reported distance, and the expected loss, that plus `extra` as far as rounding
      to tenths three times allows. */
  predicate LossesAre(m: Arithmetic, link: Link, extra: real, reported: real) {
    link.distance.Some? && link.freeSpace.Some? && link.expected.Some? &&
    var free := m.freeSpaceLoss(link.distance.value);
    Near(reported, extra, 10.0) && Near(link.freeSpace.value, free, 10.0) &&
    Near(link.expected.value, link.freeSpace.value + reported, 10.0) &&
    -0.15 <= link.expected.value - (free + extra) <= 0.15
  }

  /** A link between two devices on one floor. */
  ghost predicate SameFloorRight(m: Arithmetic, a: Position, b: Position, walls: seq<Wall>, link: Link) {
    var p, q := Point(a.x, a.y), Point(b.x, b.y);
    link.sameFloor == Some(true) && link.slabsCrossed == None && link.slabLoss == None &&
    link.distance.Some? && Near(link.distance.value, m.norm(b.x - a.x, b.y - a.y, b.z - a.z), 100.0) &&
    link.wallsCrossed == Some(|CrossedWalls(p, q, walls)|) &&
    link.openingsCrossed == Some(|OpenedWalls(m.hypot, p, q, walls)|) && link.wallLoss.Some? &&
    exists sums :: CostSums(m.hypot, p, q, walls, sums) && LossesAre(m, link, sums[0], link.wallLoss.value)
  }

  /** Each slab is charged its square-on loss times the slant of the path. */
  ghost predicate SlabsPriced(m: Arithmetic, link: Link, slabs: nat, dz: real, slab: real) {
    link.distance.Some? && link.slabLoss.Some? &&
    exists f :: SlabSlant(link.distance.value, dz, f) &&
                LossesAre(m, link, slabs as real * slab * f, link.slabLoss.value)
  }

  ghost predicate SlabsRight(m: Arithmetic, link: Link, slabs: nat, length: real, dz: real, slab: real) {
    link.sameFloor == Some(false) && link.wallsCrossed == None && link.openingsCrossed == None &&
    link.wallLoss == None && link.distance.Some? && Near(link.distance.value, length, 100.0) &&
    link.slabsCrossed == Some(slabs) && SlabsPriced(m, link, slabs, dz, slab)
  }

  /** How far up the second device is: whole storeys, and the difference of the heights above the floors. */
  function Height(levels: int, floorHeight: real, z: real, otherZ: real): real {
    levels as real * floorHeight + (otherZ - z)
  }

  /** A link between two floors that are `levels` apart: no walls are looked at. */
  ghost predicate CrossFloorRight(m: Arithmetic, a: Position, b: Position, levels: int, floorHeight: real, slab: real,
                                  link: Link)
  {
    var dz := Height(levels, floorHeight, a.z, b.z);
    SlabsRight(m, link, if levels < 0 then -levels else levels, m.norm(b.x - a.x, b.y - a.y, dz), dz, slab)
  }

  /** A link of which nothing is known but, perhaps, that it is between two floors. */
  predicate Unpriced(link: Link, sameFloor: Option<bool>) {
    link.sameFloor == sameFloor && link.distance == None && link.wallsCrossed == None && link.openingsCrossed == None &&
    link.wallLoss == None && link.slabsCrossed == None && link.slabLoss == None && link.freeSpace == None &&
    link.expected == None
  }

  ghost predicate LinkRight(m: Arithmetic, walls: map<string, seq<Wall>>, from: Option<Position>, to: Option<Position>,
                            floorHeight: real, slab: real, link: Link)
  {
    if from.None? || to.None? then Unpriced(link, None)
    else
      var a, b := from.value, to.value;
      if a.floor == b.floor then SameFloorRight(m, a, b, if a.floor in walls then walls[a.floor] else [], link)
      else if a.level.None? || b.level.None? then Unpriced(link, Some(false))
      else CrossFloorRight(m, a, b, b.level.value - a.level.value, floorHeight, slab, link)
  }

  lemma RoundNear(round: real -> real, step: real, x: real)
    requires RoundsTo(round, step)
    ensures Near(round(x), x, step)
  {
  }

  lemma LossesRounded(m: Arithmetic, link: Link, extra: real, reported: real)
    requires RoundsTo(m.round1, 10.0) && reported == m.round1(extra) && link.distance.Some?
    requires link.freeSpace == Some(m.round1(m.freeSpaceLoss(link.distance.value)))
    requires link.expected == Some(m.round1(link.freeSpace.value + reported))
    ensures LossesAre(m, link, extra, reported)
  {
    RoundNear(m.round1, 10.0, extra);
    RoundNear(m.round1, 10.0, m.freeSpaceLoss(link.distance.value));
    RoundNear(m.round1, 10.0, link.freeSpace.value + reported);
    hide RoundsTo;
  }

  lemma SameFloorIsRight(m: Arithmetic, a: Position, b: Position, walls: seq<Wall>)
    requires RoundsTo(m.round1, 10.0) && RoundsTo(m.round2, 100.0)
    ensures SameFloorRight(m, a, b, walls,
                           SameFloorLink(m, a, b, Details(m.hypot, Point(a.x, a.y), Point(b.x, b.y), walls)))
  {
    hide RoundsTo, Adds, LossesAre, Details, Total, Openings, Near, CrossedWalls, OpenedWalls;
    var p, q := Point(a.x, a.y), Point(b.x, b.y);
    var sums := WallsAre(m.hypot, p, q, walls);
    var link := SameFloorLink(m, a, b, Details(m.hypot, p, q, walls));
    RoundNear(m.round2, 100.0, m.norm(b.x - a.x, b.y - a.y, b.z - a.z));
    LossesRounded(m, link, sums[0], link.wallLoss.value);
  }

  lemma SlabsAreRight(m: Arithmetic, slabs: nat, length: real, dz: real, slab: real)
    requires RoundsTo(m.round1, 10.0) && RoundsTo(m.round2, 100.0)
    ensures SlabsRight(m, SlabLink(m, slabs, length, dz, slab), slabs, length, dz, slab)
  {
    hide RoundsTo, LossesAre, SlabSlant, SlabFactor, Near;
    var distance := m.round2(length);
    var f := SlabFactor(distance, dz);
    var link := SlabLinkAt(m, slabs, distance, f, slab);
    RoundNear(m.round2, 100.0, length);
    SlabSlantIs(distance, dz);
    LossesRounded(m, link, slabs as real * slab * f, link.slabLoss.value);
  }

  lemma CrossFloorIsRight(m: Arithmetic, a: Position, b: Position, la: int, lb: int, floorHeight: real, slab: real)
    requires RoundsTo(m.round1, 10.0) && RoundsTo(m.round2, 100.0)
    ensures CrossFloorRight(m, a, b, lb - la, floorHeight, slab, CrossFloorLink(m, a, b, la, lb, floorHeight, slab))
  {
    var dz := Height(lb - la, floorHeight, a.z, b.z);
    assert Rise(a, b, la, lb, floorHeight) == dz;
    hide RoundsTo, SlabsRight, SlabLink, Height, Rise;
    SlabsAreRight(m, if lb >= la then lb - la else la - lb, m.norm(b.x - a.x, b.y - a.y, dz), dz, slab);
  }

  /** Every link is priced right: nothing if a device has no pin; on one floor the distance, the walls crossed, how
      many of them through an opening, and their cost; across floors the slabs and theirs, or nothing without levels. */
  lemma LinkIsRight(m: Arithmetic, walls: map<string, seq<Wall>>, from: Option<Position>, to: Option<Position>,
                    floorHeight: real, slab: real)
    requires RoundsTo(m.round1, 10.0) && RoundsTo(m.round2, 100.0)
    ensures LinkRight(m, walls, from, to, floorHeight, slab, PriceLink(m, walls, from, to, floorHeight, slab))
  {
    hide RoundsTo, SameFloorRight, CrossFloorRight, SameFloorLink, CrossFloorLink, Details;
    if from.Some? && to.Some? {
      var a, b := from.value, to.value;
      if a.floor == b.floor {
        SameFloorIsRight(m, a, b, if a.floor in walls then walls[a.floor] else []);
      } else if a.level.Some? && b.level.Some? {
        CrossFloorIsRight(m, a, b, a.level.value, b.level.value, floorHeight, slab);
      }
    }
  }

  /** A path that crosses nothing is charged nothing for walls. */
  lemma ClearPath(m: Arithmetic, walls: map<string, seq<Wall>>, a: Position, b: Position, floorHeight: real, slab: real)
    requires a.floor == b.floor
    requires a.floor in walls ==> forall w :: w in walls[a.floor] ==> !Crossed(Point(a.x, a.y), Point(b.x, b.y), w)
    ensures var link := PriceLink(m, walls, Some(a), Some(b), floorHeight, slab);
            link.wallsCrossed == Some(0) && link.openingsCrossed == Some(0) && link.wallLoss == Some(m.round1(0.0))
  {
    hide Crossed, Opened, Details, Total, Openings;
    var p, q := Point(a.x, a.y), Point(b.x, b.y);
    var here := if a.floor in walls then walls[a.floor] else [];
    var sums := WallsAre(m.hypot, p, q, here);
    assert CrossedWalls(p, q, here) == {} && OpenedWalls(m.hypot, p, q, here) == {};
    NothingAdded(m.hypot, p, q, here, sums, |here|);
  }

  lemma {:induction false} NothingAdded(hypot: (real, real) -> real, p: Point, q: Point, walls: seq<Wall>,
                                        sums: seq<real>, n: nat)
    requires CostSums(hypot, p, q, walls, sums) && n <= |walls|
    requires forall w :: w in walls ==> !Crossed(p, q, w)
    ensures sums[|walls| - n] == 0.0
    decreases n
  {
    hide Crossed;
    if n > 0 {
      NothingAdded(hypot, p, q, walls, sums, n - 1);
      assert Adds(hypot, p, q, walls[|walls| - n], sums[|walls| - n] - sums[|walls| - n + 1]);
    }
  }

  /** The listed crossings, wall by wall: each is one of the crossed walls, in the order given, at its cost. */
  lemma ListedExactly(hypot: (real, real) -> real, p: Point, q: Point, walls: seq<Wall>)
    returns (at: seq<nat>)
    requires IsHypot(hypot)
    ensures var details := Details(hypot, p, q, walls);
            |at| == |details| && (forall k, l :: 0 <= k < l < |at| ==> at[k] < at[l]) &&
            (forall i: nat :: i in at <==> i < |walls| && Crossed(p, q, walls[i])) &&
            forall k :: 0 <= k < |at| ==>
              at[k] < |walls| && details[k].id == walls[at[k]].id &&
              Costs(hypot, p, q, walls[at[k]], details[k].loss, details[k].opening)
  {
    at := CrossedOnceInOrder(hypot, p, q, walls);
    hide Crosses, Crossed, Costs, DetailFor, Details, Bounded;
    var details := Details(hypot, p, q, walls);
    forall i: nat ensures i in at <==> i < |walls| && Crossed(p, q, walls[i]) {
      if i < |walls| { CrossedIs(p, q, walls[i]); }
    }
    forall k | 0 <= k < |at|
      ensures at[k] < |walls| && details[k].id == walls[at[k]].id
      ensures Costs(hypot, p, q, walls[at[k]], details[k].loss, details[k].opening)
    {
      assert Prices(hypot, p, q, details[k], walls[at[k]]);
      WallIs(hypot, p, q, walls[at[k]]);
    }
  }

  lemma CrossedIs(p: Point, q: Point, w: Wall)
    ensures Crossed(p, q, w) <==> Crosses(p, q, w)
  {
    hide SegmentsIntersect;
    forall i: nat ensures Met(p, q, w, i) <==> i + 1 < PointCount(w) && Hits(p, q, w, i) { }
    if Crosses(p, q, w) {
      var i :| 0 <= i && i + 1 < PointCount(w) && Hits(p, q, w, i);
      assert Met(p, q, w, i);
    }
    if Crossed(p, q, w) {
      var i: nat :| Met(p, q, w, i);
      assert Hits(p, q, w, i);
    }
  }

  // ---- Where the devices are -----------------------------------------------------------------------

  /** The position of a device is that of its row with the most pins, the first of those; none without a pinned row. */
  ghost predicate Stands(pins: seq<PinRow>, device: string, position: Option<Position>) {
    if forall r :: r in pins && r.device == device ==> r.x.None? || r.y.None? then position.None?
    else exists i: nat :: MostPins(pins, device, i) && position == Some(Read(pins[i]))
  }

  ghost predicate MostPins(pins: seq<PinRow>, device: string, i: nat) {
    i < |pins| && pins[i].device == device && pins[i].x.Some? && pins[i].y.Some? &&
    forall j: nat :: j < |pins| && pins[j].device == device && pins[j].x.Some? && pins[j].y.Some? ==>
      pins[j].pins < pins[i].pins || (pins[j].pins == pins[i].pins && i <= j)
  }

  function Read(r: PinRow): Position
    requires r.x.Some? && r.y.Some?
  {
    Position(r.floor, r.level, r.x.value, r.y.value, match r.z case Some(z) => z case None => 0.0)
  }

  // A missing device is looked up under the empty identifier.
  function IdOf(d: Option<string>): string { if d.Some? then d.value else "" }

  lemma StandsIs(pins: seq<PinRow>, best: map<string, PinRow>, d: Option<string>)
    requires Positions(pins, best)
    ensures Stands(pins, IdOf(d), PositionIn(best, d))
  {
    var id := IdOf(d);
    if id in best {
      assert IsBest(pins, id, best[id]);
      var i: nat :| BestRow(pins, i) && pins[i] == best[id];
      assert MostPins(pins, id, i);
      assert PositionIn(best, d) == Some(Read(pins[i]));
    } else {
      assert !HasPin(pins, id);
    }
  }

  ghost predicate PricedFrom(m: Arithmetic, pins: seq<PinRow>, walls: map<string, seq<Wall>>, row: Ends,
                             floorHeight: real, slab: real, link: Link)
  {
    exists from, to :: Stands(pins, IdOf(row.from), from) && Stands(pins, IdOf(row.to), to) &&
                       LinkRight(m, walls, from, to, floorHeight, slab, link)
  }

  /** Every link of the answer is priced right, from where its two devices stand. */
  lemma LinksAreRight(m: Arithmetic, row: Ends, pins: seq<PinRow>, walls: map<string, seq<Wall>>,
                      best: map<string, PinRow>, floorHeight: real, slab: real)
    requires RoundsTo(m.round1, 10.0) && RoundsTo(m.round2, 100.0) && Positions(pins, best)
    ensures PricedFrom(m, pins, walls, row, floorHeight, slab, PriceRow(m, walls, best, row, floorHeight, slab))
  {
    hide Positions, Stands, LinkRight, PriceLink, PositionIn, RoundsTo;
    var from, to := PositionIn(best, row.from), PositionIn(best, row.to);
    StandsIs(pins, best, row.from);
    StandsIs(pins, best, row.to);
    LinkIsRight(m, walls, from, to, floorHeight, slab);
    assert Stands(pins, IdOf(row.from), from) && Stands(pins, IdOf(row.to), to);
  }

  /** The pricing loop of `mesh_link_walls`: every link, in order, from the best pins of its two devices. */
  method PriceLinks(m: Arithmetic, rows: seq<Ends>, pins: seq<PinRow>, walls: map<string, seq<Wall>>,
                    floorHeight: real, slab: real)
    returns (links: seq<Link>, best: map<string, PinRow>)
    ensures Positions(pins, best) && |links| == |rows|
    ensures forall i :: 0 <= i < |rows| ==> links[i] == PriceRow(m, walls, best, rows[i], floorHeight, slab)
    ensures RoundsTo(m.round1, 10.0) && RoundsTo(m.round2, 100.0) ==>
              forall i :: 0 <= i < |rows| ==> PricedFrom(m, pins, walls, rows[i], floorHeight, slab, links[i])
  {
    hide PriceRow, Positions, PricedFrom, RoundsTo;
    best := DevicePositions(pins);
    links := [];
    var i := 0;
    while i < |rows|
      invariant 0 <= i <= |rows| && |links| == i
      invariant forall k :: 0 <= k < i ==> links[k] == PriceRow(m, walls, best, rows[k], floorHeight, slab)
    {
      var link := PriceRow(m, walls, best, rows[i], floorHeight, slab);
      links := links + [link];
      i := i + 1;
    }
    if RoundsTo(m.round1, 10.0) && RoundsTo(m.round2, 100.0) {
      forall k | 0 <= k < |rows| ensures PricedFrom(m, pins, walls, rows[k], floorHeight, slab, links[k]) {
        LinksAreRight(m, rows[k], pins, walls, best, floorHeight, slab);
      }
    }
  }
}
