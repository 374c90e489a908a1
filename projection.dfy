/** The projection of a frame: every ray that hit a wall becomes one vertical
    strip of the 3D view, as tall as the inverse of its distance, centred on
    the middle of the screen. */
module Projection {
  import opened Geometry
  import opened Config

  /** One filled rectangle of the 3D view: left edge x, top edge y. */
  datatype Strip = Strip(x: real, y: real, width: real, height: real)

  /** The width of one column: the screen width shared among the rays. */
  function ColumnWidth(cfg: Settings): (w: real)
    requires Projectable(cfg)
    ensures w * cfg.raysCount as real == cfg.screenWidth
  {
    cfg.screenWidth / cfg.raysCount as real
  }

  /** The distance coefficient of a hit, written as the source computes it,
      1 / (dist / zoom): the inverse of the distance measured in zoom units. */
  function DistCoef(cfg: Settings, dist: real): (coef: real)
    requires Projectable(cfg) && dist > 0.0
    ensures coef == cfg.zoom / dist
  {
    InverseOfQuotient(dist, cfg.zoom);
    1.0 / (dist / cfg.zoom)
  }

  /** The strip of column i for a hit at distance dist. */
  function StripOf(cfg: Settings, i: nat, dist: real): (s: Strip)
    requires Projectable(cfg) && dist > 0.0
    ensures s.height == cfg.screenHeight * cfg.zoom / dist
    ensures s.y + s.height / 2.0 == cfg.screenHeight / 2.0
    ensures s.width * cfg.raysCount as real == cfg.screenWidth
    ensures s.x == i as real * s.width
  {
    var rectHeight := cfg.screenHeight * DistCoef(cfg, dist);
    Strip(i as real * ColumnWidth(cfg), (cfg.screenHeight - rectHeight) / 2.0, ColumnWidth(cfg), rectHeight)
  }

  lemma InverseOfQuotient(d: real, z: real)
    requires d > 0.0 && z > 0.0
    ensures d / z > 0.0
    ensures 1.0 / (d / z) == z / d
  {
    assert (d / z) * (z / d) == 1.0;
  }

  /** A farther hit gives a strictly shorter strip that starts lower down. */
  lemma StripShorterWhenFarther(cfg: Settings, i: nat, near: real, far: real)
    requires Projectable(cfg) && cfg.screenHeight > 0.0
    requires 0.0 < near < far
    ensures StripOf(cfg, i, far).height < StripOf(cfg, i, near).height
    ensures StripOf(cfg, i, far).y > StripOf(cfg, i, near).y
  {
    var c := cfg.screenHeight * cfg.zoom;
    assert c > 0.0;
    QuotientDecreasing(c, near, far);
  }

  lemma QuotientDecreasing(c: real, d1: real, d2: real)
    requires c > 0.0 && 0.0 < d1 < d2
    ensures c / d2 < c / d1
  {
  }

  /** The columns tile the screen from left to right: column i + 1 starts where
      column i ends, and the last column ends at the right edge. */
  lemma ColumnsTile(cfg: Settings, i: nat, d1: real, d2: real)
    requires Projectable(cfg) && d1 > 0.0 && d2 > 0.0
    ensures StripOf(cfg, i + 1, d2).x == StripOf(cfg, i, d1).x + StripOf(cfg, i, d1).width
    ensures i + 1 == cfg.raysCount ==> StripOf(cfg, i, d1).x + StripOf(cfg, i, d1).width == cfg.screenWidth
  {
    var w := StripOf(cfg, i, d1).width;
    assert (i as real + 1.0) * w == i as real * w + w;
  }

  /** The distance from the player to a hit. */
  function HitDistance(sqrt: real -> real, eye: Point, h: Hit): real {
    Distance(eye, HitPoint(h), sqrt)
  }

  /** What column i draws for its slot: nothing for a ray without a hit, and
      nothing for a hit at distance zero either, whose strip would have an
      infinite height that the canvas does not draw. */
  function Column(cfg: Settings, sqrt: real -> real, eye: Point, i: nat, slot: Option<Hit>): (strips: seq<Strip>)
    requires Projectable(cfg)
    ensures |strips| <= 1
    ensures slot.None? ==> strips == []
    ensures strips != [] ==>
              && strips[0].x == i as real * (cfg.screenWidth / cfg.raysCount as real)
              && FullColumn(cfg, strips[0])
  {
    match slot
    case None => []
    case Some(h) =>
      var dist := HitDistance(sqrt, eye, h);
      if dist > 0.0 then [StripOf(cfg, i, dist)] else []
  }

  /** A strip one column wide, centred on the middle row of the screen. */
  predicate FullColumn(cfg: Settings, s: Strip) {
    s.width * cfg.raysCount as real == cfg.screenWidth && s.y + s.height / 2.0 == cfg.screenHeight / 2.0
  }

  /** The strips of a frame, in slot order: at most one per slot, each one
      column wide and centred on the middle row. */
  function Frame(cfg: Settings, sqrt: real -> real, eye: Point, slots: seq<Option<Hit>>): (strips: seq<Strip>)
    requires Projectable(cfg)
    ensures |strips| <= |slots|
    ensures FullColumns(cfg, strips)
  {
    if |slots| == 0 then []
    else Frame(cfg, sqrt, eye, slots[..|slots| - 1])
         + Column(cfg, sqrt, eye, |slots| - 1, slots[|slots| - 1])
  }

  /** Every strip is one column wide and centred on the middle row. */
  ghost predicate FullColumns(cfg: Settings, f: seq<Strip>) {
    forall j :: 0 <= j < |f| ==> FullColumn(cfg, f[j])
  }

  /** Drawing slot i after the slots before it appends the strip of its hit
      when the hit is at a positive distance, and nothing otherwise. */
  lemma FrameStep(cfg: Settings, sqrt: real -> real, eye: Point, slots: seq<Option<Hit>>, i: nat)
    requires Projectable(cfg) && i < |slots|
    ensures slots[i].Some? && HitDistance(sqrt, eye, slots[i].value) > 0.0 ==>
              Frame(cfg, sqrt, eye, slots[..i + 1])
              == Frame(cfg, sqrt, eye, slots[..i]) + [StripOf(cfg, i, HitDistance(sqrt, eye, slots[i].value))]
    ensures !(slots[i].Some? && HitDistance(sqrt, eye, slots[i].value) > 0.0) ==>
              Frame(cfg, sqrt, eye, slots[..i + 1]) == Frame(cfg, sqrt, eye, slots[..i])
  {
    assert slots[..i + 1][..i] == slots[..i];
  }

  /** Slot i holds a hit at a positive distance, and s is its strip. */
  ghost predicate Drawn(cfg: Settings, sqrt: real -> real, eye: Point, slots: seq<Option<Hit>>, i: int, s: Strip)
    requires Projectable(cfg)
  {
    && 0 <= i < |slots|
    && slots[i].Some?
    && HitDistance(sqrt, eye, slots[i].value) > 0.0
    && s == StripOf(cfg, i, HitDistance(sqrt, eye, slots[i].value))
  }

  /** A frame holds exactly the strips of the slots that hit at a positive
      distance: a slot without a hit draws nothing. */
  lemma {:induction false} FrameMembers(cfg: Settings, sqrt: real -> real, eye: Point, slots: seq<Option<Hit>>, s: Strip)
    requires Projectable(cfg)
    ensures s in Frame(cfg, sqrt, eye, slots) <==> exists i :: Drawn(cfg, sqrt, eye, slots, i, s)
  {
    if |slots| > 0 {
      var n := |slots| - 1;
      var prefix := slots[..n];
      FrameMembers(cfg, sqrt, eye, prefix, s);
      assert forall i :: 0 <= i < n ==> prefix[i] == slots[i];
      if s in Frame(cfg, sqrt, eye, slots) {
        if s in Frame(cfg, sqrt, eye, prefix) {
          var i :| Drawn(cfg, sqrt, eye, prefix, i, s);
          assert Drawn(cfg, sqrt, eye, slots, i, s);
        } else {
          assert Drawn(cfg, sqrt, eye, slots, n, s);
        }
      }
      if i :| Drawn(cfg, sqrt, eye, slots, i, s) {
        if i < n {
          assert Drawn(cfg, sqrt, eye, prefix, i, s);
        } else {
          assert Column(cfg, sqrt, eye, n, slots[n]) == [s];
        }
      }
    }
  }

  /** FrameMembers for every strip at once. */
  lemma AllFrameMembers(cfg: Settings, sqrt: real -> real, eye: Point, slots: seq<Option<Hit>>)
    requires Projectable(cfg)
    ensures forall s :: s in Frame(cfg, sqrt, eye, slots) <==> exists i :: Drawn(cfg, sqrt, eye, slots, i, s)
  {
    forall s ensures s in Frame(cfg, sqrt, eye, slots) <==> exists i :: Drawn(cfg, sqrt, eye, slots, i, s) {
      FrameMembers(cfg, sqrt, eye, slots, s);
    }
  }

  /** With a positive screen width the strips of a frame go strictly from left
      to right. */
  lemma {:induction false} FrameLeftToRight(cfg: Settings, sqrt: real -> real, eye: Point, slots: seq<Option<Hit>>)
    requires Projectable(cfg) && cfg.screenWidth > 0.0
    ensures LeftToRight(Frame(cfg, sqrt, eye, slots))
  {
    if |slots| > 0 {
      var n := |slots| - 1;
      var prefix := slots[..n];
      FrameLeftToRight(cfg, sqrt, eye, prefix);
      FrameBefore(cfg, sqrt, eye, prefix, n);
      AppendLeftToRight(Frame(cfg, sqrt, eye, prefix), Column(cfg, sqrt, eye, n, slots[n]),
                        n as real * (cfg.screenWidth / cfg.raysCount as real));
    }
  }

  /** At most one strip at x appended to strips left to right and left of x
      keeps them left to right. */
  lemma AppendLeftToRight(before: seq<Strip>, last: seq<Strip>, x: real)
    requires LeftToRight(before) && AllLeftOf(before, x)
    requires |last| <= 1 && (last != [] ==> last[0].x == x)
    ensures LeftToRight(before + last)
  {
    var f := before + last;
    forall j, k | 0 <= j < k < |f|
      ensures f[j].x < f[k].x
    {
      if k < |before| {
        assert f[j] == before[j] && f[k] == before[k];
      } else {
        assert f[j] == before[j] && f[k] == last[0];
      }
    }
  }

  /** The strips go strictly from left to right. */
  ghost predicate LeftToRight(f: seq<Strip>) {
    forall j, k :: 0 <= j < k < |f| ==> f[j].x < f[k].x
  }

  /** Every strip starts strictly left of x. */
  ghost predicate AllLeftOf(f: seq<Strip>, x: real) {
    forall j :: 0 <= j < |f| ==> f[j].x < x
  }

  /** The strips of a frame of at most m slots all start left of column m. */
  lemma FrameBefore(cfg: Settings, sqrt: real -> real, eye: Point, slots: seq<Option<Hit>>, m: nat)
    requires Projectable(cfg) && cfg.screenWidth > 0.0 && |slots| <= m
    ensures AllLeftOf(Frame(cfg, sqrt, eye, slots), m as real * (cfg.screenWidth / cfg.raysCount as real))
  {
    var f := Frame(cfg, sqrt, eye, slots);
    forall j | 0 <= j < |f|
      ensures f[j].x < m as real * (cfg.screenWidth / cfg.raysCount as real)
    {
      FrameMembers(cfg, sqrt, eye, slots, f[j]);
      var i :| Drawn(cfg, sqrt, eye, slots, i, f[j]);
      ColumnBefore(cfg, i, m, HitDistance(sqrt, eye, slots[i].value));
    }
  }

  /** A column left of column m starts strictly before it. */
  lemma ColumnBefore(cfg: Settings, i: nat, m: nat, dist: real)
    requires Projectable(cfg) && cfg.screenWidth > 0.0 && dist > 0.0 && i < m
    ensures StripOf(cfg, i, dist).x < m as real * (cfg.screenWidth / cfg.raysCount as real)
  {
    var w := cfg.screenWidth / cfg.raysCount as real;
    assert w > 0.0;
    assert m as real * w - i as real * w == (m - i) as real * w;
  }

  /** A frame of at most raysCount slots stays within the screen's width. */
  lemma FrameWithinScreen(cfg: Settings, sqrt: real -> real, eye: Point, slots: seq<Option<Hit>>, s: Strip)
    requires Projectable(cfg) && cfg.screenWidth >= 0.0
    requires |slots| <= cfg.raysCount
    requires s in Frame(cfg, sqrt, eye, slots)
    ensures 0.0 <= s.x && s.x + s.width <= cfg.screenWidth
  {
    FrameMembers(cfg, sqrt, eye, slots, s);
    var i :| Drawn(cfg, sqrt, eye, slots, i, s);
    ColumnInside(cfg, i, HitDistance(sqrt, eye, slots[i].value));
  }

  lemma ColumnInside(cfg: Settings, i: nat, dist: real)
    requires Projectable(cfg) && cfg.screenWidth >= 0.0 && dist > 0.0 && i < cfg.raysCount
    ensures 0.0 <= StripOf(cfg, i, dist).x
    ensures StripOf(cfg, i, dist).x + StripOf(cfg, i, dist).width <= cfg.screenWidth
  {
    var w := cfg.screenWidth / cfg.raysCount as real;
    var n := cfg.raysCount as real;
    assert w >= 0.0 && n * w == cfg.screenWidth;
    assert i as real * w >= 0.0;
    var gap := n - i as real - 1.0;
    assert gap >= 0.0;
    assert gap * w >= 0.0;
    assert n * w - (i as real * w + w) == gap * w;
  }
}
