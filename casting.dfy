/** The ray caster: the fan of rays across the player's field of view, and the
    nearest wall hit of each ray. */
module Casting {
  import opened Geometry
  import opened Config

  // ---------------------------------------------------------------------
  // The ray fan

  /** The angle between neighbouring rays. With no rays at all the value is
      never used, so the division is guarded. */
  function AngleDelta(cfg: Settings): real {
    if cfg.raysCount == 0 then 0.0 else cfg.playerSightAngle / cfg.raysCount as real
  }

  /** The angle of the leftmost ray: half the field of view before the facing angle. */
  function StartAngle(cfg: Settings, angle: real): real {
    angle - cfg.playerSightAngle / 2.0
  }

  /** The angle of ray i, measured from the facing angle: ray i lies
      i - raysCount / 2 steps from it, so the fan is centred on it. */
  function RayAngle(cfg: Settings, angle: real, i: nat): (theta: real)
    ensures cfg.raysCount > 0 ==>
              theta - angle == (i as real - cfg.raysCount as real / 2.0) * AngleDelta(cfg)
  {
    StartAngle(cfg, angle) + i as real * AngleDelta(cfg)
  }

  /** Ray i: from the player's position, sight distance long, along ray angle
      i; the sine term is subtracted because the map's y axis grows downwards.
      Where cosine and sine satisfy cos^2 + sin^2 == 1 the ray is exactly the
      sight distance long. */
  function RayAt(cfg: Settings, math: Math, pos: Point, angle: real, i: nat): (ray: Segment)
    ensures ray.a == pos
    ensures var theta := RayAngle(cfg, angle, i);
            math.cos(theta) * math.cos(theta) + math.sin(theta) * math.sin(theta) == 1.0 ==>
              SquaredDistance(ray.a, ray.b) == cfg.playerSightDistance * cfg.playerSightDistance
  {
    var theta := RayAngle(cfg, angle, i);
    var d, c, sn := cfg.playerSightDistance, math.cos(theta), math.sin(theta);
    ScaledUnitLength(d, c, sn);
    Segment(pos, Point(pos.x + d * c, pos.y - d * sn))
  }

  lemma ScaledUnitLength(d: real, c: real, s: real)
    ensures (d * c) * (d * c) + (d * s) * (d * s) == d * d * (c * c + s * s)
  {
  }

  /** The whole fan, ray 0 first (the leftmost). */
  function RayFan(cfg: Settings, math: Math, pos: Point, angle: real): (rays: seq<Segment>)
    ensures |rays| == cfg.raysCount
    ensures forall i :: 0 <= i < |rays| ==> rays[i].a == pos
  {
    seq(cfg.raysCount, i requires 0 <= i => RayAt(cfg, math, pos, angle, i))
  }

  /** Neighbouring rays are exactly one angle step apart, and the steps of all
      rays add up to the field of view. */
  lemma {:induction false} FanEvenlySpaced(cfg: Settings, angle: real, i: nat)
    requires cfg.raysCount > 0
    ensures RayAngle(cfg, angle, 0) == angle - cfg.playerSightAngle / 2.0
    ensures RayAngle(cfg, angle, i + 1) - RayAngle(cfg, angle, i) == AngleDelta(cfg)
    ensures cfg.raysCount as real * AngleDelta(cfg) == cfg.playerSightAngle
  {
    var n, d := cfg.raysCount as real, AngleDelta(cfg);
    assert (i as real + 1.0) * d == i as real * d + d;
  }

  /** The fan is centred on the facing angle: ray i and the (virtual) ray
      raysCount - i lie symmetrically about it. */
  lemma {:induction false} FanCentred(cfg: Settings, angle: real, i: nat)
    requires 0 < cfg.raysCount && i <= cfg.raysCount
    ensures RayAngle(cfg, angle, i) + RayAngle(cfg, angle, cfg.raysCount - i) == 2.0 * angle
  {
    var n, d := cfg.raysCount as real, AngleDelta(cfg);
    assert n * d == cfg.playerSightAngle;
    assert i as real * d + (cfg.raysCount - i) as real * d == n * d;
  }

  /** With a non-negative field of view, every ray's angle lies in the half-open
      range [angle - sightAngle / 2, angle + sightAngle / 2). */
  lemma {:induction false} FanWithinSight(cfg: Settings, angle: real, i: nat)
    requires cfg.playerSightAngle > 0.0
    requires i < cfg.raysCount
    ensures angle - cfg.playerSightAngle / 2.0 <= RayAngle(cfg, angle, i)
    ensures RayAngle(cfg, angle, i) < angle + cfg.playerSightAngle / 2.0
  {
    var n, d := cfg.raysCount as real, AngleDelta(cfg);
    assert d > 0.0;
    assert n * d == cfg.playerSightAngle;
    assert i as real * d >= 0.0;
    assert i as real * d < n * d;
  }

  // ---------------------------------------------------------------------
  // The nearest hit of one ray

  /** The candidates of one ray: every wall, in list order, mapped through the
      intersection test. */
  function Candidates(walls: seq<Segment>, ray: Segment): (cands: seq<Option<Hit>>)
    ensures |cands| == |walls|
    ensures forall k :: 0 <= k < |walls| ==> cands[k] == Intersect(walls[k], ray)
    ensures OnRay(cands, ray)
    ensures forall k :: 0 <= k < |cands| && cands[k].Some? ==>
              && Denominator(walls[k], ray) != 0.0
              && InUnit(WallParameter(walls[k], ray))
              && HitPoint(cands[k].value) == At(walls[k], WallParameter(walls[k], ray))
  {
    CandidateHitsOnBoth(walls, ray);
    seq(|walls|, k requires 0 <= k < |walls| => Intersect(walls[k], ray))
  }

  /** Every candidate hit is the point of the ray at its r. */
  ghost predicate OnRay(cands: seq<Option<Hit>>, ray: Segment) {
    forall k :: 0 <= k < |cands| && cands[k].Some? ==> HitPoint(cands[k].value) == At(ray, cands[k].value.r)
  }

  lemma CandidateHitsOnBoth(walls: seq<Segment>, ray: Segment)
    ensures forall k :: 0 <= k < |walls| && Intersect(walls[k], ray).Some? ==>
              && Denominator(walls[k], ray) != 0.0
              && InUnit(WallParameter(walls[k], ray))
              && HitPoint(Intersect(walls[k], ray).value) == At(walls[k], WallParameter(walls[k], ray))
              && HitPoint(Intersect(walls[k], ray).value) == At(ray, Intersect(walls[k], ray).value.r)
  {
    forall k | 0 <= k < |walls| && Intersect(walls[k], ray).Some? {
      IntersectOnBoth(walls[k], ray);
    }
  }

  /** The candidates that are hits, in order: the misses filtered out. Every
      hit among the candidates is kept, and nothing else. */
  function Present(cands: seq<Option<Hit>>): (hits: seq<Hit>)
    ensures |hits| <= |cands|
    ensures forall h :: h in hits <==> Some(h) in cands
  {
    if |cands| == 0 then []
    else
      Present(cands[..|cands| - 1])
      + match cands[|cands| - 1]
        case Some(h) => [h]
        case None => []
  }

  /** The number of hits among the candidates. */
  function HitCount(cands: seq<Option<Hit>>): nat {
    if |cands| == 0 then 0
    else HitCount(cands[..|cands| - 1]) + (if cands[|cands| - 1].Some? then 1 else 0)
  }

  /** Hit j is a candidate with exactly j hits before it: the hits are listed
      in candidate order. */
  ghost predicate KeptInOrder(cands: seq<Option<Hit>>, hits: seq<Hit>) {
    forall j :: 0 <= j < |hits| ==>
      exists k :: 0 <= k < |cands| && cands[k] == Some(hits[j]) && HitCount(cands[..k]) == j
  }

  /** The filter keeps one entry per hit, in candidate order. */
  lemma {:induction false} PresentInOrder(cands: seq<Option<Hit>>)
    ensures |Present(cands)| == HitCount(cands)
    ensures KeptInOrder(cands, Present(cands))
  {
    if |cands| > 0 {
      var n := |cands| - 1;
      PresentInOrder(cands[..n]);
      PresentStep(cands);
      AppendKeptInOrder(cands, Present(cands[..n]), Present(cands));
    }
  }

  /** The filter of one more candidate appends that candidate's hit, if any. */
  lemma PresentStep(cands: seq<Option<Hit>>)
    requires |cands| > 0
    ensures var n := |cands| - 1;
            Present(cands) == Present(cands[..n]) + (if cands[n].Some? then [cands[n].value] else [])
  {
  }

  /** Appending the last candidate's hit to hits kept in order from the other
      candidates keeps all of them in order. */
  lemma AppendKeptInOrder(cands: seq<Option<Hit>>, before: seq<Hit>, hits: seq<Hit>)
    requires |cands| > 0
    requires var n := |cands| - 1;
             && KeptInOrder(cands[..n], before) && |before| == HitCount(cands[..n])
             && hits == before + (if cands[n].Some? then [cands[n].value] else [])
    ensures |hits| == HitCount(cands)
    ensures KeptInOrder(cands, hits)
  {
    var n := |cands| - 1;
    var prefix := cands[..n];
    forall j | 0 <= j < |hits|
      ensures exists k :: 0 <= k < |cands| && cands[k] == Some(hits[j]) && HitCount(cands[..k]) == j
    {
      if j < |before| {
        assert hits[j] == before[j];
        EarlierKeptInOrder(cands, before, j);
      } else {
        assert cands[..n] == prefix;
        assert cands[n] == Some(hits[j]) && HitCount(cands[..n]) == j;
      }
    }
  }

  /** A hit kept in order from the candidates without the last one is kept in
      order from all of them. */
  lemma EarlierKeptInOrder(cands: seq<Option<Hit>>, before: seq<Hit>, j: int)
    requires |cands| > 0 && KeptInOrder(cands[..|cands| - 1], before) && 0 <= j < |before|
    ensures exists k :: 0 <= k < |cands| && cands[k] == Some(before[j]) && HitCount(cands[..k]) == j
  {
    var prefix := cands[..|cands| - 1];
    var k :| 0 <= k < |prefix| && prefix[k] == Some(before[j]) && HitCount(prefix[..k]) == j;
    assert cands[..k] == prefix[..k];
    assert cands[k] == Some(before[j]) && HitCount(cands[..k]) == j;
  }

  /** The index the reduction with a strict `<` on r ends at: it keeps the
      earlier hit on equal r, so it finds the FIRST hit of least r. */
  function ClosestIndex(hits: seq<Hit>): (j: nat)
    requires |hits| > 0
    ensures j < |hits|
    ensures forall k :: 0 <= k < |hits| ==> hits[j].r <= hits[k].r
    ensures forall k :: 0 <= k < j ==> hits[j].r < hits[k].r
  {
    if |hits| == 1 then 0
    else
      var prev := ClosestIndex(hits[..|hits| - 1]);
      if hits[|hits| - 1].r < hits[prev].r then |hits| - 1 else prev
  }

  /** The closest of the candidates: None exactly when none is a hit,
      otherwise one of the candidates, of least r among the hits. */
  function Closest(cands: seq<Option<Hit>>): (c: Option<Hit>)
    ensures c.None? <==> forall k :: 0 <= k < |cands| ==> cands[k].None?
    ensures c.Some? ==> c in cands
    ensures c.Some? ==> forall k :: 0 <= k < |cands| && cands[k].Some? ==> c.value.r <= cands[k].value.r
  {
    var hits := Present(cands);
    if |hits| > 0 then Some(hits[ClosestIndex(hits)]) else None
  }

  /** The nearest hit of a ray against all walls: None exactly when no wall is
      hit, otherwise the hit of some wall, on the ray at its r, and of least r
      among the hits of all walls. */
  function NearestHit(walls: seq<Segment>, ray: Segment): (h: Option<Hit>)
    ensures h.None? <==> forall k :: 0 <= k < |walls| ==> Intersect(walls[k], ray).None?
    ensures h.Some? ==> exists k :: 0 <= k < |walls| && Intersect(walls[k], ray) == h
    ensures h.Some? ==> InUnit(h.value.r) && HitPoint(h.value) == At(ray, h.value.r)
    ensures h.Some? ==> forall k :: 0 <= k < |walls| && Intersect(walls[k], ray).Some? ==>
                          h.value.r <= Intersect(walls[k], ray).value.r
  {
    Closest(Candidates(walls, ray))
  }

  /** The nearest hit is the filter of the candidates followed by the reduction. */
  lemma NearestHitOfPresent(walls: seq<Segment>, ray: Segment, hits: seq<Hit>)
    requires hits == Present(Candidates(walls, ray))
    ensures |hits| > 0 ==> NearestHit(walls, ray) == Some(hits[ClosestIndex(hits)])
    ensures |hits| == 0 ==> NearestHit(walls, ray) == None
  {
  }

  /** One step of the reduction, seen candidate by candidate: a new hit
      replaces the current one only when its r is strictly smaller. */
  function Keep(current: Option<Hit>, next: Option<Hit>): Option<Hit> {
    if next.None? then current
    else if current.None? then next
    else if next.value.r < current.value.r then next
    else current
  }

  /** One more candidate at the end changes the closest hit as one step of the
      reduction does. */
  lemma {:induction false} ClosestStep(cands: seq<Option<Hit>>)
    requires |cands| > 0
    ensures Closest(cands) == Keep(Closest(cands[..|cands| - 1]), cands[|cands| - 1])
  {
    var before := Present(cands[..|cands| - 1]);
    var hits := Present(cands);
    match cands[|cands| - 1]
    case None =>
      assert hits == before;
    case Some(h) =>
      assert hits == before + [h];
      assert hits[..|hits| - 1] == before;
      if |before| == 0 {
        assert hits == [h];
      }
  }

  /** Candidate j is the first hit of least r. */
  ghost predicate IsFirstNearest(cands: seq<Option<Hit>>, j: int) {
    && 0 <= j < |cands|
    && cands[j].Some?
    && (forall k :: 0 <= k < |cands| && cands[k].Some? ==> cands[j].value.r <= cands[k].value.r)
    && (forall k :: 0 <= k < j && cands[k].Some? ==> cands[j].value.r < cands[k].value.r)
  }

  /** A closest candidate is the FIRST hit of least r: the reduction keeps the
      earlier of two hits at equal r. */
  lemma {:induction false} ClosestIsFirstMinimum(cands: seq<Option<Hit>>)
    ensures Closest(cands).Some? ==>
            exists j :: IsFirstNearest(cands, j) && cands[j] == Closest(cands)
  {
    if |cands| > 0 {
      var n := |cands| - 1;
      var prefix := cands[..n];
      ClosestIsFirstMinimum(prefix);
      ClosestStep(cands);
      var last, acc := cands[n], Closest(prefix);
      if acc.Some? {
        var j :| IsFirstNearest(prefix, j) && prefix[j] == acc;
        if last.Some? && last.value.r < acc.value.r {
          LastIsFirstNearest(cands, j);
        } else {
          EarlierStaysFirstNearest(cands, j);
        }
      } else if last.Some? {
        assert forall k :: 0 <= k < n ==> cands[k] == prefix[k];
        assert IsFirstNearest(cands, n);
      }
    }
  }

  /** The first hit of least r among all but the last candidate stays so when
      the last one is a miss or is not strictly nearer. */
  lemma EarlierStaysFirstNearest(cands: seq<Option<Hit>>, j: int)
    requires |cands| > 0 && IsFirstNearest(cands[..|cands| - 1], j)
    requires cands[|cands| - 1].None? || cands[|cands| - 1].value.r >= cands[j].value.r
    ensures IsFirstNearest(cands, j)
  {
    var prefix := cands[..|cands| - 1];
    assert forall k :: 0 <= k < |prefix| ==> prefix[k] == cands[k];
  }

  /** A last candidate strictly nearer than the first nearest of the others
      becomes the first hit of least r. */
  lemma LastIsFirstNearest(cands: seq<Option<Hit>>, j: int)
    requires |cands| > 0 && IsFirstNearest(cands[..|cands| - 1], j)
    requires cands[|cands| - 1].Some? && cands[|cands| - 1].value.r < cands[j].value.r
    ensures IsFirstNearest(cands, |cands| - 1)
  {
    var prefix := cands[..|cands| - 1];
    assert forall k :: 0 <= k < |prefix| ==> prefix[k] == cands[k];
  }

  /** At most one candidate is the first hit of least r. */
  lemma FirstNearestUnique(cands: seq<Option<Hit>>, j1: int, j2: int)
    requires IsFirstNearest(cands, j1) && IsFirstNearest(cands, j2)
    ensures j1 == j2
  {
  }

  /** Two candidate lists of the same ray with the same elements have the same
      closest hit: its r is the least r of either list, and a hit on the ray is
      determined by its r. */
  lemma ClosestSameElements(c1: seq<Option<Hit>>, c2: seq<Option<Hit>>, ray: Segment)
    requires OnRay(c1, ray) && OnRay(c2, ray)
    requires forall k :: 0 <= k < |c1| ==> c1[k] in c2
    requires forall m :: 0 <= m < |c2| ==> c2[m] in c1
    ensures Closest(c1) == Closest(c2)
  {
    ClosestIsFirstMinimum(c1);
    ClosestIsFirstMinimum(c2);
    var h1, h2 := Closest(c1), Closest(c2);
    if h1.Some? {
      var j1 :| IsFirstNearest(c1, j1) && c1[j1] == h1;
      var m1 :| 0 <= m1 < |c2| && c2[m1] == c1[j1];
      assert h2.Some?;
      var j2 :| IsFirstNearest(c2, j2) && c2[j2] == h2;
      var k2 :| 0 <= k2 < |c1| && c1[k2] == c2[j2];
      assert h1.value.r == h2.value.r;
      assert HitPoint(h1.value) == HitPoint(h2.value);
    }
  }

  /** Over exact reals the nearest hit does not depend on the order of the
      walls, ties included. */
  lemma NearestHitOrderFree(walls: seq<Segment>, others: seq<Segment>, ray: Segment)
    requires multiset(walls) == multiset(others)
    ensures NearestHit(walls, ray) == NearestHit(others, ray)
  {
    var c1, c2 := Candidates(walls, ray), Candidates(others, ray);
    forall k | 0 <= k < |c1|
      ensures c1[k] in c2
    {
      assert walls[k] in multiset(others);
      var m :| 0 <= m < |others| && others[m] == walls[k];
      assert c2[m] == c1[k];
    }
    forall m | 0 <= m < |c2|
      ensures c2[m] in c1
    {
      assert others[m] in multiset(walls);
      var k :| 0 <= k < |walls| && walls[k] == others[m];
      assert c1[k] == c2[m];
    }
    ClosestSameElements(c1, c2, ray);
  }

  /** A ray that crosses two walls at r1 < r2: the far wall's hit is never the
      result, and the result is at most as far as the near wall's. */
  lemma NearerWallWins(walls: seq<Segment>, ray: Segment, near: nat, far: nat)
    requires near < |walls| && far < |walls|
    requires Intersect(walls[near], ray).Some? && Intersect(walls[far], ray).Some?
    requires Intersect(walls[near], ray).value.r < Intersect(walls[far], ray).value.r
    ensures NearestHit(walls, ray).Some?
    ensures NearestHit(walls, ray).value.r <= Intersect(walls[near], ray).value.r
    ensures NearestHit(walls, ray) != Intersect(walls[far], ray)
  {
    var cands := Candidates(walls, ray);
    ClosestIsFirstMinimum(cands);
    var j :| IsFirstNearest(cands, j) && cands[j] == Closest(cands);
    assert cands[near] == Intersect(walls[near], ray);
  }
}
