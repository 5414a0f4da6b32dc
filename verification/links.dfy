/** Wall crossings of a path, device positions, and the price of a mesh link. */
module Links {
  import opened Registry
  import opened Sequences
  import opened Geometry

  // Point and opening lists are parallel arrays; the shortest counts.
  datatype Wall = Wall(id: string, xs: seq<real>, ys: seq<real>, attenuation: Option<real>,
                       kinds: seq<string>, openingXs: seq<real>, openingYs: seq<real>, widths: seq<real>)
  datatype Detail = Detail(id: string, loss: real, opening: Option<string>)

  function PointCount(w: Wall): nat { Min(|w.xs|, |w.ys|) }
  function OpeningCount(w: Wall): nat { Min(Min(|w.kinds|, |w.openingXs|), Min(|w.openingYs|, |w.widths|)) }
  function PointAt(w: Wall, i: nat): Point
    requires i < PointCount(w)
  {
    Point(w.xs[i], w.ys[i])
  }

  function OpeningLoss(kind: string): Option<real> {
    if kind == "door" then Some(3.0) else if kind == "window" then Some(2.0) else None
  }

  // ---- Openings ------------------------------------------------------------------------

  predicate InOpening(hypot: (real, real) -> real, w: Wall, at: Point, i: nat)
    requires i < OpeningCount(w)
  {
    OpeningLoss(w.kinds[i]).Some? && hypot(at.x - w.openingXs[i], at.y - w.openingYs[i]) <= w.widths[i] / 2.0
  }

  function OpeningFrom(hypot: (real, real) -> real, w: Wall, at: Point, i: nat): Option<string>
    requires i <= OpeningCount(w)
    decreases OpeningCount(w) - i
  {
    if i == OpeningCount(w) then None
    else if InOpening(hypot, w, at, i) then Some(w.kinds[i])
    else OpeningFrom(hypot, w, at, i + 1)
  }

  method OpeningAt(hypot: (real, real) -> real, w: Wall, at: Point) returns (kind: Option<string>)
    ensures kind == OpeningFrom(hypot, w, at, 0)
    ensures kind.Some? ==>
              exists i :: 0 <= i < OpeningCount(w) && InOpening(hypot, w, at, i) && w.kinds[i] == kind.value &&
                          forall j :: 0 <= j < i ==> !InOpening(hypot, w, at, j)
    ensures kind.None? ==> forall i :: 0 <= i < OpeningCount(w) ==> !InOpening(hypot, w, at, i)
  {
    var i := 0;
    while i < OpeningCount(w)
      invariant 0 <= i <= OpeningCount(w) && OpeningFrom(hypot, w, at, i) == OpeningFrom(hypot, w, at, 0)
      invariant forall j :: 0 <= j < i ==> !InOpening(hypot, w, at, j)
    {
      if InOpening(hypot, w, at, i) { return Some(w.kinds[i]); }
      i := i + 1;
    }
    return None;
  }

  // ---- Crossed walls ----------------------------------------------------------------------

  predicate Hits(p: Point, q: Point, w: Wall, i: nat)
    requires i + 1 < PointCount(w)
  {
    SegmentsIntersect(p, q, PointAt(w, i), PointAt(w, i + 1))
  }

  predicate Crosses(p: Point, q: Point, w: Wall) { exists i :: 0 <= i && i + 1 < PointCount(w) && Hits(p, q, w, i) }

  /** The first of the wall's segments, from the i-th on, that the path meets. */
  function FirstHit(p: Point, q: Point, w: Wall, i: nat): (r: Option<nat>)
    ensures r.Some? ==> i <= r.value && r.value + 1 < PointCount(w) && Hits(p, q, w, r.value)
    ensures r.Some? ==> forall j :: i <= j < r.value ==> !Hits(p, q, w, j)
    ensures r.None? ==> forall j :: i <= j && j + 1 < PointCount(w) ==> !Hits(p, q, w, j)
    decreases PointCount(w) - i
  {
    if i + 1 >= PointCount(w) then None else if Hits(p, q, w, i) then Some(i) else FirstHit(p, q, w, i + 1)
  }

  /** What the path is charged for before slant: the opening it goes through, else the wall. */
  function Base(w: Wall, opening: Option<string>): real {
    if opening.Some? && OpeningLoss(opening.value).Some? then OpeningLoss(opening.value).value
    else if w.attenuation.Some? then w.attenuation.value else 0.0
  }

  function Slanted(base: real, factor: real): real { base * factor }

  function DetailOf(hypot: (real, real) -> real, p: Point, q: Point, w: Wall, i: nat): Detail
    requires i + 1 < PointCount(w)
  {
    var a, b := PointAt(w, i), PointAt(w, i + 1);
    var opening := OpeningFrom(hypot, w, CrossingPoint(p, q, a, b), 0);
    Detail(w.id, Slanted(Base(w, opening), SegmentFactor(hypot, p, q, a, b)), opening)
  }

  function DetailFor(hypot: (real, real) -> real, p: Point, q: Point, w: Wall): seq<Detail> {
    var hit := FirstHit(p, q, w, 0);
    if hit.None? then [] else [DetailOf(hypot, p, q, w, hit.value)]
  }

  function Details(hypot: (real, real) -> real, p: Point, q: Point, walls: seq<Wall>): seq<Detail> {
    if walls == [] then [] else DetailFor(hypot, p, q, walls[0]) + Details(hypot, p, q, walls[1..])
  }

  /** `wall_crossing_details`. */
  method WallCrossingDetails(hypot: (real, real) -> real, p: Point, q: Point, walls: seq<Wall>)
    returns (details: seq<Detail>)
    ensures details == Details(hypot, p, q, walls)
  {
    hide SegmentFactor, CrossingPoint, SegmentsIntersect, Base;
    details := [];
    var k := 0;
    assert walls[0..] == walls;
    while k < |walls|
      invariant 0 <= k <= |walls| && details + Details(hypot, p, q, walls[k..]) == Details(hypot, p, q, walls)
    {
      assert walls[k..][0] == walls[k] && walls[k..][1..] == walls[k + 1..];
      var found := WallDetail(hypot, p, q, walls[k]);
      Regroup(details, found, Details(hypot, p, q, walls[k + 1..]));
      details := details + found;
      k := k + 1;
    }
    assert walls[k..] == [] && details + [] == details;
  }

  // The loop over one wall's segments, left at the first hit.
  method WallDetail(hypot: (real, real) -> real, p: Point, q: Point, w: Wall) returns (found: seq<Detail>)
    ensures found == DetailFor(hypot, p, q, w)
  {
    hide SegmentFactor, CrossingPoint, SegmentsIntersect, OpeningFrom, Base;
    var i := 0;
    while i + 1 < PointCount(w)
      invariant 0 <= i && FirstHit(p, q, w, i) == FirstHit(p, q, w, 0)
    {
      var a, b := PointAt(w, i), PointAt(w, i + 1);
      if SegmentsIntersect(p, q, a, b) {
        var factor := SegmentFactor(hypot, p, q, a, b);
        var opening := OpeningAt(hypot, w, CrossingPoint(p, q, a, b));
        assert FirstHit(p, q, w, i) == Some(i);
        assert DetailOf(hypot, p, q, w, i) == Detail(w.id, Slanted(Base(w, opening), factor), opening);
        return [Detail(w.id, Slanted(Base(w, opening), factor), opening)];
      }
      i := i + 1;
    }
    return [];
  }

  // ---- Direction and bounds --------------------------------------------------------------------

  lemma {:induction false} FirstHitEitherWay(p: Point, q: Point, w: Wall, i: nat)
    ensures FirstHit(q, p, w, i) == FirstHit(p, q, w, i)
    decreases PointCount(w) - i
  {
    hide SegmentsIntersect;
    if i + 1 < PointCount(w) {
      IntersectsEitherWay(p, q, PointAt(w, i), PointAt(w, i + 1));
      FirstHitEitherWay(p, q, w, i + 1);
    }
  }

  lemma DetailEitherWay(hypot: (real, real) -> real, p: Point, q: Point, w: Wall)
    requires IsHypot(hypot)
    ensures DetailFor(hypot, q, p, w) == DetailFor(hypot, p, q, w)
  {
    hide SegmentsIntersect, SegmentFactor, CrossingPoint, OpeningFrom, IsHypot, Base;
    FirstHitEitherWay(p, q, w, 0);
    var hit := FirstHit(p, q, w, 0);
    if hit.Some? {
      var a, b := PointAt(w, hit.value), PointAt(w, hit.value + 1);
      FactorEitherWay(hypot, p, q, a, b);
      PointEitherWay(p, q, a, b);
      assert DetailOf(hypot, q, p, w, hit.value) == DetailOf(hypot, p, q, w, hit.value);
    }
  }

  /** Swapping the ends of the path gives the same walls, the same openings and the same losses. */
  lemma {:induction false} DetailsEitherWay(hypot: (real, real) -> real, p: Point, q: Point, walls: seq<Wall>)
    requires IsHypot(hypot)
    ensures Details(hypot, q, p, walls) == Details(hypot, p, q, walls)
    decreases |walls|
  {
    if walls != [] {
      DetailEitherWay(hypot, p, q, walls[0]);
      DetailsEitherWay(hypot, p, q, walls[1..]);
    }
  }

  ghost predicate Bounded(d: Detail, w: Wall) {
    var base := Base(w, d.opening);
    d.id == w.id && (base >= 0.0 ==> base <= d.loss <= MAX_OBLIQUE_FACTOR * base)
  }

  ghost predicate Prices(hypot: (real, real) -> real, p: Point, q: Point, d: Detail, w: Wall) {
    DetailFor(hypot, p, q, w) == [d] && Bounded(d, w)
  }

  lemma DetailPrices(hypot: (real, real) -> real, p: Point, q: Point, w: Wall)
    requires IsHypot(hypot)
    ensures Crosses(p, q, w) <==> |DetailFor(hypot, p, q, w)| == 1
    ensures !Crosses(p, q, w) <==> DetailFor(hypot, p, q, w) == []
    ensures Crosses(p, q, w) ==> Prices(hypot, p, q, DetailFor(hypot, p, q, w)[0], w)
  {
    hide SegmentsIntersect, DetailOf, IsHypot, Bounded;
    var hit := FirstHit(p, q, w, 0);
    if hit.Some? {
      assert Hits(p, q, w, hit.value);
      DetailOfBounded(hypot, p, q, w, hit.value);
    }
  }

  lemma DetailOfBounded(hypot: (real, real) -> real, p: Point, q: Point, w: Wall, i: nat)
    requires IsHypot(hypot) && i + 1 < PointCount(w)
    ensures Bounded(DetailOf(hypot, p, q, w, i), w)
  {
    hide SegmentFactor, CrossingPoint, OpeningFrom, IsHypot, Base, Slanted;
    var a, b := PointAt(w, i), PointAt(w, i + 1);
    FactorBounds(hypot, p, q, a, b);
    var opening := OpeningFrom(hypot, w, CrossingPoint(p, q, a, b), 0);
    Scaled(Base(w, opening), SegmentFactor(hypot, p, q, a, b));
  }

  lemma Scaled(base: real, factor: real)
    requires 1.0 <= factor <= 3.0
    ensures base >= 0.0 ==> base <= Slanted(base, factor) <= MAX_OBLIQUE_FACTOR * base
  {
    if base >= 0.0 {
      ProductSign(base, factor - 1.0);
      ProductSign(base, 3.0 - factor);
    }
  }

  // `at` gives, for each detail, the index of its wall.
  ghost predicate Lists(hypot: (real, real) -> real, p: Point, q: Point, walls: seq<Wall>, details: seq<Detail>,
                        at: seq<nat>)
  {
    |at| == |details| && (forall k, l :: 0 <= k < l < |at| ==> at[k] < at[l]) &&
    (forall k :: 0 <= k < |at| ==> at[k] < |walls| && Prices(hypot, p, q, details[k], walls[at[k]])) &&
    forall i: nat :: i in at <==> i < |walls| && Crosses(p, q, walls[i])
  }

  /** Exactly the crossed walls are listed, each once, in the order given, and each at between one and three
      times the loss of the wall or of the opening the path goes through. */
  lemma {:induction false} CrossedOnceInOrder(hypot: (real, real) -> real, p: Point, q: Point, walls: seq<Wall>)
    returns (at: seq<nat>)
    requires IsHypot(hypot)
    ensures Lists(hypot, p, q, walls, Details(hypot, p, q, walls), at)
    decreases |walls|
  {
    if walls == [] {
      at := [];
    } else {
      hide Crosses, Prices, DetailFor, IsHypot, Lists;
      var rest := CrossedOnceInOrder(hypot, p, q, walls[1..]);
      DetailPrices(hypot, p, q, walls[0]);
      at := ListsNext(hypot, p, q, walls, DetailFor(hypot, p, q, walls[0]), Details(hypot, p, q, walls[1..]), rest);
    }
  }

  lemma ListsNext(hypot: (real, real) -> real, p: Point, q: Point, walls: seq<Wall>, first: seq<Detail>,
                  details: seq<Detail>, rest: seq<nat>)
    returns (at: seq<nat>)
    requires walls != [] && Lists(hypot, p, q, walls[1..], details, rest)
    requires if Crosses(p, q, walls[0]) then |first| == 1 && Prices(hypot, p, q, first[0], walls[0]) else first == []
    ensures Lists(hypot, p, q, walls, first + details, at)
  {
    hide Crosses, Prices, Shift;
    var head: seq<nat> := if Crosses(p, q, walls[0]) then [0] else [];
    at := head + Shift(rest);
    PricesNext(hypot, p, q, walls, first, details, head, rest);
    IndicesNext(p, q, walls, head, rest);
    IncreasingNext(head, rest);
  }

  lemma IncreasingNext(head: seq<nat>, rest: seq<nat>)
    requires head == [] || head == [0]
    requires forall k, l :: 0 <= k < l < |rest| ==> rest[k] < rest[l]
    ensures var at := head + Shift(rest); forall k, l :: 0 <= k < l < |at| ==> at[k] < at[l]
  {
  }

  lemma PricesNext(hypot: (real, real) -> real, p: Point, q: Point, walls: seq<Wall>, first: seq<Detail>,
                   details: seq<Detail>, head: seq<nat>, rest: seq<nat>)
    requires walls != [] && |first| == |head| <= 1 && |rest| == |details|
    requires forall k :: 0 <= k < |head| ==> head[k] == 0 && Prices(hypot, p, q, first[k], walls[0])
    requires forall k :: 0 <= k < |rest| ==>
               rest[k] < |walls[1..]| && Prices(hypot, p, q, details[k], walls[1..][rest[k]])
    ensures var at := head + Shift(rest);
            forall k :: 0 <= k < |at| ==> at[k] < |walls| && Prices(hypot, p, q, (first + details)[k], walls[at[k]])
  {
    hide Prices;
    var at := head + Shift(rest);
    forall k | 0 <= k < |at| ensures at[k] < |walls| && Prices(hypot, p, q, (first + details)[k], walls[at[k]]) {
      if k >= |head| {
        var l := k - |head|;
        assert at[k] == rest[l] + 1 && walls[at[k]] == walls[1..][rest[l]];
      }
    }
  }

  lemma IndicesNext(p: Point, q: Point, walls: seq<Wall>, head: seq<nat>, rest: seq<nat>)
    requires walls != [] && head == if Crosses(p, q, walls[0]) then [0] else []
    requires forall i: nat :: i in rest <==> i < |walls[1..]| && Crosses(p, q, walls[1..][i])
    ensures forall i: nat :: i in head + Shift(rest) <==> i < |walls| && Crosses(p, q, walls[i])
  {
    hide Crosses;
    var shifted := Shift(rest);
    forall i: nat ensures i in head + shifted <==> i < |walls| && Crosses(p, q, walls[i]) {
      if i > 0 {
        var k: nat := i - 1;
        assert k + 1 in shifted <==> k in rest;
        assert i < |walls| ==> walls[i] == walls[1..][k];
      }
    }
  }

  function Shift(s: seq<nat>): (r: seq<nat>)
    ensures |r| == |s| && (forall k :: 0 <= k < |s| ==> r[k] == s[k] + 1)
    ensures forall i: nat :: i + 1 in r <==> i in s
    ensures 0 !in r
  {
    var r := seq(|s|, k requires 0 <= k < |s| => s[k] + 1);
    assert forall i: nat :: i in s ==> i + 1 in r by {
      forall i: nat | i in s ensures i + 1 in r {
        var k :| 0 <= k < |s| && s[k] == i;
        assert r[k] == i + 1;
      }
    }
    r
  }

  function Total(details: seq<Detail>): real { if details == [] then 0.0 else details[0].loss + Total(details[1..]) }
  function Openings(details: seq<Detail>): nat {
    if details == [] then 0
    else (if details[0].opening.Some? && details[0].opening.value != "" then 1 else 0) + Openings(details[1..])
  }

  // ---- Where devices are -------------------------------------------------------------------------

  // One row per device and floor: the mean position of the device's pins there.
  datatype PinRow = PinRow(device: string, floor: string, level: Option<int>,
                           x: Option<real>, y: Option<real>, z: Option<real>, pins: nat)
  datatype Position = Position(floor: string, level: Option<int>, x: real, y: real, z: real)

  predicate Pinned(r: PinRow) { r.x.Some? && r.y.Some? }

  ghost predicate HasPin(rows: seq<PinRow>, d: string) { exists r :: r in rows && r.device == d && Pinned(r) }

  /** Row i is the one that counts for its device: no row has more pins, no earlier one as many. */
  ghost predicate BestRow(rows: seq<PinRow>, i: nat) {
    i < |rows| && Pinned(rows[i]) &&
    forall j :: 0 <= j < |rows| && rows[j].device == rows[i].device && Pinned(rows[j]) ==>
      rows[j].pins <= rows[i].pins && (j < i ==> rows[j].pins < rows[i].pins)
  }

  ghost predicate IsBest(rows: seq<PinRow>, d: string, row: PinRow) {
    row.device == d && exists i: nat :: BestRow(rows, i) && rows[i] == row
  }

  function PositionOf(r: PinRow): Position
    requires Pinned(r)
  {
    Position(r.floor, r.level, r.x.value, r.y.value, if r.z.Some? then r.z.value else 0.0)
  }

  ghost predicate Positions(rows: seq<PinRow>, best: map<string, PinRow>) {
    (forall d :: d in best <==> HasPin(rows, d)) && (forall d :: d in best ==> IsBest(rows, d, best[d]))
  }

  /** `_device_positions`: where most of a device's entities are pinned. */
  method DevicePositions(rows: seq<PinRow>) returns (best: map<string, PinRow>)
    ensures Positions(rows, best)
  {
    hide Positions;
    best := map[];
    NoPositions();
    var k := 0;
    assert rows[..0] == [];
    while k < |rows|
      invariant 0 <= k <= |rows| && Positions(rows[..k], best)
    {
      var row := rows[k];
      assert rows[..k + 1] == rows[..k] + [row];
      if Pinned(row) && (row.device !in best || row.pins > best[row.device].pins) {
        NextBest(rows[..k], best, row);
        best := best[row.device := row];
      } else {
        SameBest(rows[..k], best, row);
      }
      k := k + 1;
    }
    assert rows[..k] == rows;
  }

  lemma NoPositions()
    ensures Positions([], map[])
  {
  }

  lemma HasPinNext(rows: seq<PinRow>, row: PinRow, d: string)
    ensures HasPin(rows + [row], d) <==> HasPin(rows, d) || (row.device == d && Pinned(row))
  {
    assert forall r :: r in rows + [row] <==> r in rows || r == row;
  }

  lemma StillBest(rows: seq<PinRow>, row: PinRow, d: string, b: PinRow)
    requires IsBest(rows, d, b) && (row.device == d && Pinned(row) ==> row.pins <= b.pins)
    ensures IsBest(rows + [row], d, b)
  {
    var i: nat :| BestRow(rows, i) && rows[i] == b;
    var all := rows + [row];
    forall j | 0 <= j < |all| && all[j].device == all[i].device && Pinned(all[j])
      ensures all[j].pins <= all[i].pins && (j < i ==> all[j].pins < all[i].pins)
    {
      if j < |rows| { assert all[j] == rows[j]; }
    }
    assert BestRow(all, i) && all[i] == b;
  }

  lemma NowBest(rows: seq<PinRow>, row: PinRow)
    requires Pinned(row) && forall r :: r in rows && r.device == row.device && Pinned(r) ==> r.pins < row.pins
    ensures IsBest(rows + [row], row.device, row)
  {
    var all := rows + [row];
    forall j | 0 <= j < |all| && all[j].device == row.device && Pinned(all[j])
      ensures all[j].pins <= row.pins && (j < |rows| ==> all[j].pins < row.pins)
    {
      if j < |rows| { assert all[j] in rows; }
    }
    assert BestRow(all, |rows|) && all[|rows|] == row;
  }

  lemma BestBounds(rows: seq<PinRow>, d: string, b: PinRow)
    requires IsBest(rows, d, b)
    ensures forall r :: r in rows && r.device == d && Pinned(r) ==> r.pins <= b.pins
  {
    var i: nat :| BestRow(rows, i) && rows[i] == b;
    forall r | r in rows && r.device == d && Pinned(r) ensures r.pins <= b.pins {
      var j :| 0 <= j < |rows| && rows[j] == r;
    }
  }

  lemma NextBest(rows: seq<PinRow>, best: map<string, PinRow>, row: PinRow)
    requires Positions(rows, best) && Pinned(row) && (row.device !in best || row.pins > best[row.device].pins)
    ensures Positions(rows + [row], best[row.device := row])
  {
    var next := best[row.device := row];
    forall d ensures d in next <==> HasPin(rows + [row], d) { HasPinNext(rows, row, d); }
    forall d | d in next ensures IsBest(rows + [row], d, next[d]) {
      if d == row.device {
        if d in best { BestBounds(rows, d, best[d]); } else { assert !HasPin(rows, d); }
        NowBest(rows, row);
      } else {
        StillBest(rows, row, d, best[d]);
      }
    }
  }

  lemma SameBest(rows: seq<PinRow>, best: map<string, PinRow>, row: PinRow)
    requires Positions(rows, best) && !(Pinned(row) && (row.device !in best || row.pins > best[row.device].pins))
    ensures Positions(rows + [row], best)
  {
    forall d ensures d in best <==> HasPin(rows + [row], d) { HasPinNext(rows, row, d); }
    forall d | d in best ensures IsBest(rows + [row], d, best[d]) { StillBest(rows, row, d, best[d]); }
  }

  // ---- The price of a link -----------------------------------------------------------------------

  // Square roots, rounding and the free-space loss are functions the pricing is given.
  datatype Arithmetic = Arithmetic(hypot: (real, real) -> real, norm: (real, real, real) -> real,
                                   round2: real -> real, round1: real -> real, freeSpaceLoss: real -> real)

  ghost predicate IsNorm(norm: (real, real, real) -> real) {
    forall x, y, z :: norm(x, y, z) >= 0.0 && norm(x, y, z) * norm(x, y, z) == x * x + y * y + z * z
  }

  datatype Link = Link(sameFloor: Option<bool>, distance: Option<real>,
                       wallsCrossed: Option<nat>, openingsCrossed: Option<nat>, wallLoss: Option<real>,
                       slabsCrossed: Option<nat>, slabLoss: Option<real>,
                       freeSpace: Option<real>, expected: Option<real>)

  const UNRESOLVED := Link(None, None, None, None, None, None, None, None, None)

  function SlabFactor(distance: real, vertical: real): real {
    if distance < EPSILON then 1.0 else ObliqueFactor(Abs(vertical) / distance)
  }

  function SameFloorLink(m: Arithmetic, a: Position, b: Position, details: seq<Detail>): Link {
    var distance := m.round2(m.norm(b.x - a.x, b.y - a.y, b.z - a.z));
    var wallLoss, free := m.round1(Total(details)), m.round1(m.freeSpaceLoss(distance));
    UNRESOLVED.(sameFloor := Some(true), distance := Some(distance), wallsCrossed := Some(|details|),
                openingsCrossed := Some(Openings(details)), wallLoss := Some(wallLoss), freeSpace := Some(free),
                expected := Some(m.round1(free + wallLoss)))
  }

  function SlabLinkAt(m: Arithmetic, slabs: nat, distance: real, factor: real, slab: real): Link {
    var slabLoss, free := m.round1(slabs as real * slab * factor), m.round1(m.freeSpaceLoss(distance));
    UNRESOLVED.(sameFloor := Some(false), distance := Some(distance), slabsCrossed := Some(slabs),
                slabLoss := Some(slabLoss), freeSpace := Some(free), expected := Some(m.round1(free + slabLoss)))
  }

  function SlabLink(m: Arithmetic, slabs: nat, length: real, dz: real, slab: real): Link {
    var distance := m.round2(length);
    SlabLinkAt(m, slabs, distance, SlabFactor(distance, dz), slab)
  }

  function Rise(a: Position, b: Position, la: int, lb: int, floorHeight: real): real {
    (lb - la) as real * floorHeight + b.z - a.z
  }

  function CrossFloorLink(m: Arithmetic, a: Position, b: Position, la: int, lb: int,
                          floorHeight: real, slab: real): Link
  {
    var dz := Rise(a, b, la, lb, floorHeight);
    SlabLink(m, if lb >= la then lb - la else la - lb, m.norm(b.x - a.x, b.y - a.y, dz), dz, slab)
  }

  /** The geometry part of one `mesh_link_walls` entry. */
  function PriceLink(m: Arithmetic, walls: map<string, seq<Wall>>, from: Option<Position>, to: Option<Position>,
                     floorHeight: real, slab: real): Link
  {
    if from.None? || to.None? then UNRESOLVED
    else
      var a, b := from.value, to.value;
      if a.floor == b.floor then
        var here := if a.floor in walls then walls[a.floor] else [];
        SameFloorLink(m, a, b, Details(m.hypot, Point(a.x, a.y), Point(b.x, b.y), here))
      else if a.level.Some? && b.level.Some? then
        CrossFloorLink(m, a, b, a.level.value, b.level.value, floorHeight, slab)
      else UNRESOLVED.(sameFloor := Some(false))
  }

  // A missing device is looked up under the empty identifier.
  function PositionIn(best: map<string, PinRow>, d: Option<string>): Option<Position> {
    var id := if d.Some? then d.value else "";
    if id in best && Pinned(best[id]) then Some(PositionOf(best[id])) else None
  }

  // The endpoints of a link, when they are known devices.
  datatype Ends = Ends(from: Option<string>, to: Option<string>)

  function PriceRow(m: Arithmetic, walls: map<string, seq<Wall>>, best: map<string, PinRow>, row: Ends,
                    floorHeight: real, slab: real): Link
  {
    PriceLink(m, walls, PositionIn(best, row.from), PositionIn(best, row.to), floorHeight, slab)
  }

  lemma NormNeg(norm: (real, real, real) -> real, x: real, y: real, z: real)
    requires IsNorm(norm)
    ensures norm(-x, -y, -z) == norm(x, y, z)
  {
    var m, n := norm(-x, -y, -z), norm(x, y, z);
    assert m * m == n * n;
    SquareOrder(m, n);
    SquareOrder(n, m);
  }

  lemma SameFloorEitherWay(m: Arithmetic, a: Position, b: Position, details: seq<Detail>)
    requires IsNorm(m.norm)
    ensures SameFloorLink(m, b, a, details) == SameFloorLink(m, a, b, details)
  {
    hide IsNorm;
    NormNeg(m.norm, b.x - a.x, b.y - a.y, b.z - a.z);
    assert a.x - b.x == -(b.x - a.x) && a.y - b.y == -(b.y - a.y) && a.z - b.z == -(b.z - a.z);
    assert m.norm(a.x - b.x, a.y - b.y, a.z - b.z) == m.norm(b.x - a.x, b.y - a.y, b.z - a.z);
  }

  lemma RiseNeg(a: Position, b: Position, la: int, lb: int, floorHeight: real)
    ensures Rise(b, a, lb, la, floorHeight) == -Rise(a, b, la, lb, floorHeight)
  {
    assert (la - lb) as real == -((lb - la) as real);
    assert (la - lb) as real * floorHeight == -((lb - la) as real * floorHeight);
  }

  lemma SlabFactorNeg(distance: real, dz: real)
    ensures SlabFactor(distance, -dz) == SlabFactor(distance, dz)
  {
    hide ObliqueFactor;
    assert Abs(-dz) == Abs(dz);
  }

  lemma SlabLinkNeg(m: Arithmetic, slabs: nat, length: real, dz: real, slab: real)
    ensures SlabLink(m, slabs, length, -dz, slab) == SlabLink(m, slabs, length, dz, slab)
  {
    SlabFactorNeg(m.round2(length), dz);
    hide SlabFactor, SlabLinkAt;
  }

  lemma CrossFloorEitherWay(m: Arithmetic, a: Position, b: Position, la: int, lb: int, floorHeight: real, slab: real)
    requires IsNorm(m.norm)
    ensures CrossFloorLink(m, b, a, lb, la, floorHeight, slab) == CrossFloorLink(m, a, b, la, lb, floorHeight, slab)
  {
    hide IsNorm, SlabLink, Rise;
    var dz, back := Rise(a, b, la, lb, floorHeight), Rise(b, a, lb, la, floorHeight);
    RiseNeg(a, b, la, lb, floorHeight);
    NormNeg(m.norm, b.x - a.x, b.y - a.y, dz);
    assert a.x - b.x == -(b.x - a.x) && a.y - b.y == -(b.y - a.y);
    var length := m.norm(b.x - a.x, b.y - a.y, dz);
    assert m.norm(a.x - b.x, a.y - b.y, back) == length;
    SlabLinkNeg(m, if lb >= la then lb - la else la - lb, length, dz, slab);
  }

  /** A link is priced alike in both directions, on one floor and across floors. */
  lemma PriceEitherWay(m: Arithmetic, walls: map<string, seq<Wall>>, from: Option<Position>, to: Option<Position>,
                       floorHeight: real, slab: real)
    requires IsHypot(m.hypot) && IsNorm(m.norm)
    ensures PriceLink(m, walls, to, from, floorHeight, slab) == PriceLink(m, walls, from, to, floorHeight, slab)
  {
    hide SameFloorLink, CrossFloorLink, Details, IsHypot, IsNorm;
    if from.Some? && to.Some? {
      var a, b := from.value, to.value;
      if a.floor == b.floor {
        var here := if a.floor in walls then walls[a.floor] else [];
        DetailsEitherWay(m.hypot, Point(a.x, a.y), Point(b.x, b.y), here);
        SameFloorEitherWay(m, a, b, Details(m.hypot, Point(a.x, a.y), Point(b.x, b.y), here));
      } else if a.level.Some? && b.level.Some? {
        CrossFloorEitherWay(m, a, b, a.level.value, b.level.value, floorHeight, slab);
      }
    }
  }

  /** The slant of a slab never lowers its price exactly when the path is at least as long as its height. */
  lemma SlabFactorAtLeastOne(distance: real, vertical: real)
    ensures 0.0 < SlabFactor(distance, vertical) <= MAX_OBLIQUE_FACTOR
    ensures SlabFactor(distance, vertical) >= 1.0 <==> distance < EPSILON || Abs(vertical) <= distance
  {
    hide ObliqueFactor;
    if distance >= EPSILON {
      var cos := Abs(vertical) / distance;
      ObliqueBounds(cos);
      DivMul(Abs(vertical), distance);
      assert (cos - 1.0) * distance == Abs(vertical) - distance;
      FactorSign(cos - 1.0, distance);
    }
  }

  /** So with the path's exact length a slab never costs less than square-on. */
  lemma SlabWithExactDistance(norm: (real, real, real) -> real, dx: real, dy: real, dz: real)
    requires IsNorm(norm)
    ensures SlabFactor(norm(dx, dy, dz), dz) >= 1.0
  {
    hide SlabFactor;
    var n := norm(dx, dy, dz);
    ProductSign(dx, dx);
    ProductSign(dy, dy);
    assert Abs(dz) * Abs(dz) == dz * dz;
    SquareOrder(Abs(dz), n);
    SlabFactorAtLeastOne(n, dz);
  }

  /** Rounding to the nearest multiple of 1 / step, however ties go. */
  ghost predicate RoundsTo(round: real -> real, step: real) {
    forall x :: (round(x) * step).Floor as real == round(x) * step && 2.0 * step * Abs(round(x) - x) <= 1.0
  }

  /** So a slab is discounted exactly when its path is not negligible and rounding takes the distance below the
      height, and then the distance is less than half a centimetre short of it. */
  lemma DiscountExactly(m: Arithmetic, dx: real, dy: real, dz: real)
    requires IsNorm(m.norm) && RoundsTo(m.round2, 100.0)
    ensures var distance := m.round2(m.norm(dx, dy, dz));
            (SlabFactor(distance, dz) < 1.0 <==> EPSILON <= distance < Abs(dz)) && Abs(dz) - distance <= 0.005
  {
    hide SlabFactor;
    var length := m.norm(dx, dy, dz);
    ProductSign(dx, dx);
    ProductSign(dy, dy);
    assert Abs(dz) * Abs(dz) == dz * dz;
    SquareOrder(Abs(dz), length);
    SlabFactorAtLeastOne(m.round2(length), dz);
  }

  lemma RoundsToCentimetres(round: real -> real)
    requires RoundsTo(round, 100.0)
    ensures round(0.404) == 0.4
  {
    var hundredths := (round(0.404) * 100.0).Floor;
    assert hundredths as real == round(0.404) * 100.0;
    assert 39.9 <= hundredths as real <= 40.9;
    assert hundredths == 40;
  }

  lemma RoundsToTenths(round: real -> real, x: real)
    requires RoundsTo(round, 10.0) && 14.851 <= x <= 14.852
    ensures round(x) == 14.9
  {
    var tenths := (round(x) * 10.0).Floor;
    assert tenths as real == round(x) * 10.0;
    assert 148.01 <= tenths as real <= 149.02;
    assert tenths == 149;
  }

  const CEILING_PIN := Position("ground", Some(0), 0.0, 0.0, 2.4)
  const FLOOR_PIN := Position("first", Some(1), 0.0, 0.0, 0.004)

  /** With the default slab of 15 dB and storeys of 2.8 m, a device below a ceiling and one straight above it
      are priced 14.9 dB for the slab between them. */
  lemma RoundedDistanceCanDiscount(m: Arithmetic, walls: map<string, seq<Wall>>)
    requires IsNorm(m.norm) && RoundsTo(m.round2, 100.0) && RoundsTo(m.round1, 10.0)
    ensures var link := PriceLink(m, walls, Some(CEILING_PIN), Some(FLOOR_PIN), 2.8, 15.0);
            link.distance == Some(0.4) && link.slabsCrossed == Some(1) && link.slabLoss == Some(14.9)
  {
    hide SlabFactor, IsNorm, RoundsTo;
    assert Rise(CEILING_PIN, FLOOR_PIN, 0, 1, 2.8) == 0.404;
    StraightUp(m.norm, 0.404);
    RoundsToCentimetres(m.round2);
    ExampleFactor();
    RoundsToTenths(m.round1, 1.0 * 15.0 * SlabFactor(0.4, 0.404));
    assert SlabLink(m, 1, 0.404, 0.404, 15.0).slabLoss == Some(m.round1(1.0 * 15.0 * SlabFactor(0.4, 0.404)));
  }

  lemma StraightUp(norm: (real, real, real) -> real, dz: real)
    requires IsNorm(norm) && dz >= 0.0
    ensures norm(0.0, 0.0, dz) == dz
  {
    var n := norm(0.0, 0.0, dz);
    assert n * n == dz * dz;
    SquareOrder(n, dz);
    SquareOrder(dz, n);
  }

  lemma ExampleFactor()
    ensures 14.851 <= 15.0 * SlabFactor(0.4, 0.404) <= 14.852
  {
    assert Abs(0.404) / 0.4 == 1.01;
  }
}
