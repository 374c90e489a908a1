/** The geometry kernel of the ray caster: map points, segments (walls and
    rays), the intersection test between a wall and a ray, and the distance
    between two points. All coordinates are exact reals; the map's y axis grows
    downwards, as on the canvas. */
module Geometry {

  datatype Option<+T> = None | Some(value: T)

  /** A point of the map. */
  datatype Point = Point(x: real, y: real)

  /** A segment [a, b]: a wall [A, B] or a ray [C, D] from the player outwards. */
  datatype Segment = Segment(a: Point, b: Point)

  /** A hit: where a ray meets a wall, with the parameter r of that point
      along the ray (0 at the ray's start, 1 at its end). */
  datatype Hit = Hit(x: real, y: real, r: real)

  function HitPoint(h: Hit): Point {
    Point(h.x, h.y)
  }

  /** The point at parameter t along seg: seg.a at t = 0, seg.b at t = 1. */
  function At(seg: Segment, t: real): Point {
    Point(seg.a.x + t * (seg.b.x - seg.a.x), seg.a.y + t * (seg.b.y - seg.a.y))
  }

  /** The shared denominator of the 2x2 system: zero exactly when the wall and
      the ray are parallel or collinear. */
  function Denominator(wall: Segment, ray: Segment): real {
    var A, B, C, D := wall.a, wall.b, ray.a, ray.b;
    (D.x - C.x) * (B.y - A.y) - (B.x - A.x) * (D.y - C.y)
  }

  /** Numerator of r, the parameter along the ray. */
  function RayNumerator(wall: Segment, ray: Segment): real {
    var A, B, C := wall.a, wall.b, ray.a;
    (B.x - A.x) * (C.y - A.y) - (C.x - A.x) * (B.y - A.y)
  }

  /** Numerator of s, the parameter along the wall. */
  function WallNumerator(wall: Segment, ray: Segment): real {
    var A, C, D := wall.a, ray.a, ray.b;
    (A.x - C.x) * (D.y - C.y) - (D.x - C.x) * (A.y - C.y)
  }

  function RayParameter(wall: Segment, ray: Segment): real
    requires Denominator(wall, ray) != 0.0
  {
    RayNumerator(wall, ray) / Denominator(wall, ray)
  }

  function WallParameter(wall: Segment, ray: Segment): real
    requires Denominator(wall, ray) != 0.0
  {
    WallNumerator(wall, ray) / Denominator(wall, ray)
  }

  predicate InUnit(t: real) {
    0.0 <= t <= 1.0
  }

  /** The intersection test of a wall against a ray. Parallel and collinear
      pairs (zero denominator) give no hit, even when they overlap; otherwise
      there is a hit exactly when both parameters lie in the closed range
      [0, 1], so both endpoints of either segment count. */
  function Intersect(wall: Segment, ray: Segment): (h: Option<Hit>)
    ensures Denominator(wall, ray) == 0.0 ==> h == None
    ensures h.Some? ==> InUnit(h.value.r)
  {
    var A, B := wall.a, wall.b;
    if Denominator(wall, ray) == 0.0 then None
    else
      var r := RayParameter(wall, ray);
      var s := WallParameter(wall, ray);
      if r >= 0.0 && r <= 1.0 && s >= 0.0 && s <= 1.0 then
        Some(Hit(s * (B.x - A.x) + A.x, s * (B.y - A.y) + A.y, r))
      else
        None
  }

  /** Cramer's rule for s * u - r * v == w, with u the wall's direction, v the
      ray's direction and w the offset from the wall's start to the ray's
      start: the computed parameters solve the system. */
  lemma CramerSolves(ux: real, uy: real, vx: real, vy: real, wx: real, wy: real)
    requires vx * uy - ux * vy != 0.0
    ensures var den := vx * uy - ux * vy;
            var s := (vx * wy - wx * vy) / den;
            var r := (ux * wy - wx * uy) / den;
            s * ux - r * vx == wx && s * uy - r * vy == wy
  {
    var den := vx * uy - ux * vy;
    var sn, rn := vx * wy - wx * vy, ux * wy - wx * uy;
    var s, r := sn / den, rn / den;
    assert s * den == sn && r * den == rn;
    assert sn * ux - rn * vx == wx * den;
    assert sn * uy - rn * vy == wy * den;
    assert (s * ux - r * vx) * den == sn * ux - rn * vx;
    assert (s * uy - r * vy) * den == sn * uy - rn * vy;
  }

  /** The solution of a non-singular system is unique. */
  lemma CramerUnique(ux: real, uy: real, vx: real, vy: real, wx: real, wy: real, s: real, r: real,
                     den: real, sn: real, rn: real)
    requires den == vx * uy - ux * vy && den != 0.0
    requires sn == vx * wy - wx * vy && rn == ux * wy - wx * uy
    requires s * ux - r * vx == wx && s * uy - r * vy == wy
    ensures s == sn / den && r == rn / den
  {
    assert sn == s * den;
    assert rn == r * den;
  }

  /** A hit lies on the wall, at a wall parameter in [0, 1], and on the ray at
      the returned parameter r. */
  lemma IntersectOnBoth(wall: Segment, ray: Segment)
    requires Intersect(wall, ray).Some?
    ensures Denominator(wall, ray) != 0.0
    ensures var p := HitPoint(Intersect(wall, ray).value);
            && InUnit(WallParameter(wall, ray))
            && p == At(wall, WallParameter(wall, ray))
            && p == At(ray, Intersect(wall, ray).value.r)
  {
    var A, B, C, D := wall.a, wall.b, ray.a, ray.b;
    var ux, uy, vx, vy, wx, wy := B.x - A.x, B.y - A.y, D.x - C.x, D.y - C.y, C.x - A.x, C.y - A.y;
    assert Denominator(wall, ray) == vx * uy - ux * vy;
    assert WallNumerator(wall, ray) == vx * wy - wx * vy;
    assert RayNumerator(wall, ray) == ux * wy - wx * uy;
    CramerSolves(ux, uy, vx, vy, wx, wy);
  }

  /** Conversely, a non-parallel wall and ray that share a point within both
      segments always give a hit, and it is that point at that ray parameter. */
  lemma IntersectComplete(wall: Segment, ray: Segment, s: real, r: real)
    requires Denominator(wall, ray) != 0.0
    requires InUnit(s) && InUnit(r)
    requires At(wall, s) == At(ray, r)
    ensures Intersect(wall, ray) == Some(Hit(At(ray, r).x, At(ray, r).y, r))
  {
    ParametersOfCommonPoint(wall, ray, s, r);
    var A, B := wall.a, wall.b;
    assert r >= 0.0 && r <= 1.0 && s >= 0.0 && s <= 1.0;
    var p := At(wall, s);
    assert p.x == A.x + s * (B.x - A.x) && p.y == A.y + s * (B.y - A.y);
    assert Intersect(wall, ray).value.x == s * (B.x - A.x) + A.x == p.x;
    assert Intersect(wall, ray).value.y == s * (B.y - A.y) + A.y == p.y;
  }

  /** The parameters at which a non-parallel wall and ray meet are the ones
      the intersection test computes. */
  lemma ParametersOfCommonPoint(wall: Segment, ray: Segment, s: real, r: real)
    requires Denominator(wall, ray) != 0.0
    requires At(wall, s) == At(ray, r)
    ensures WallParameter(wall, ray) == s && RayParameter(wall, ray) == r
  {
    SystemTerms(wall, ray);
    LinearSystemOfCommonPoint(wall, ray, s, r);
    SolvedSystem(wall, ray, s, r);
  }

  /** Cramer's rule applied to the system of a wall and a ray. */
  lemma SolvedSystem(wall: Segment, ray: Segment, s: real, r: real)
    requires Denominator(wall, ray) != 0.0
    requires Denominator(wall, ray)
          == (ray.b.x - ray.a.x) * (wall.b.y - wall.a.y) - (wall.b.x - wall.a.x) * (ray.b.y - ray.a.y)
    requires WallNumerator(wall, ray)
          == (ray.b.x - ray.a.x) * (ray.a.y - wall.a.y) - (ray.a.x - wall.a.x) * (ray.b.y - ray.a.y)
    requires RayNumerator(wall, ray)
          == (wall.b.x - wall.a.x) * (ray.a.y - wall.a.y) - (ray.a.x - wall.a.x) * (wall.b.y - wall.a.y)
    requires s * (wall.b.x - wall.a.x) - r * (ray.b.x - ray.a.x) == ray.a.x - wall.a.x
    requires s * (wall.b.y - wall.a.y) - r * (ray.b.y - ray.a.y) == ray.a.y - wall.a.y
    ensures WallParameter(wall, ray) == s && RayParameter(wall, ray) == r
  {
    CramerUnique(wall.b.x - wall.a.x, wall.b.y - wall.a.y, ray.b.x - ray.a.x, ray.b.y - ray.a.y,
                 ray.a.x - wall.a.x, ray.a.y - wall.a.y, s, r,
                 Denominator(wall, ray), WallNumerator(wall, ray), RayNumerator(wall, ray));
  }

  /** The denominator and the numerators written with the direction vectors
      u = B - A, v = D - C and the offset w = C - A. */
  lemma SystemTerms(wall: Segment, ray: Segment)
    ensures Denominator(wall, ray)
         == (ray.b.x - ray.a.x) * (wall.b.y - wall.a.y) - (wall.b.x - wall.a.x) * (ray.b.y - ray.a.y)
    ensures WallNumerator(wall, ray)
         == (ray.b.x - ray.a.x) * (ray.a.y - wall.a.y) - (ray.a.x - wall.a.x) * (ray.b.y - ray.a.y)
    ensures RayNumerator(wall, ray)
         == (wall.b.x - wall.a.x) * (ray.a.y - wall.a.y) - (ray.a.x - wall.a.x) * (wall.b.y - wall.a.y)
  {
  }

  /** A common point of the wall at s and the ray at r solves
      s * u - r * v == w, written out by coordinates. */
  lemma LinearSystemOfCommonPoint(wall: Segment, ray: Segment, s: real, r: real)
    requires At(wall, s) == At(ray, r)
    ensures s * (wall.b.x - wall.a.x) - r * (ray.b.x - ray.a.x) == ray.a.x - wall.a.x
    ensures s * (wall.b.y - wall.a.y) - r * (ray.b.y - ray.a.y) == ray.a.y - wall.a.y
  {
    var p, q := At(wall, s), At(ray, r);
    assert p.x == q.x && p.y == q.y;
  }

  /** The ray from (75, 100) to (0, 100) ends exactly on the wall from (0, 0)
      to (0, 300): an endpoint counts as a hit, at r == 1. */
  lemma EndpointHit()
    ensures Intersect(Segment(Point(0.0, 0.0), Point(0.0, 300.0)),
                      Segment(Point(75.0, 100.0), Point(0.0, 100.0)))
         == Some(Hit(0.0, 100.0, 1.0))
  {
  }

  /** The squared Euclidean distance: never negative, and zero from a point
      to itself. */
  function SquaredDistance(a: Point, b: Point): (d: real)
    ensures d >= 0.0
    ensures a == b ==> d == 0.0
  {
    (a.x - b.x) * (a.x - b.x) + (a.y - b.y) * (a.y - b.y)
  }

  /** sqrt is a square root: on every non-negative argument it returns the
      non-negative number whose square is that argument. */
  ghost predicate IsSquareRoot(sqrt: real -> real) {
    forall q :: q >= 0.0 ==> sqrt(q) >= 0.0 && sqrt(q) * sqrt(q) == q
  }

  /** The Euclidean distance, with the square root supplied by the caller.
      Given a true square root it is the non-negative number whose square is
      the squared distance. */
  function Distance(a: Point, b: Point, sqrt: real -> real): (d: real)
    ensures IsSquareRoot(sqrt) ==> d >= 0.0 && d * d == SquaredDistance(a, b)
  {
    sqrt(SquaredDistance(a, b))
  }

  lemma {:induction false} DistanceSymmetric(a: Point, b: Point, sqrt: real -> real)
    ensures Distance(a, b, sqrt) == Distance(b, a, sqrt)
  {
    assert SquaredDistance(a, b) == SquaredDistance(b, a);
  }
}
