/** The game state and the per-frame steps that update it: the ray fan and the
    intersections are rebuilt in place every frame, the pose is changed in
    place by key presses, and the 3D view is drawn from the intersections. */
module Engine {
  import opened Geometry
  import opened Config
  import opened Casting
  import opened Projection
  import opened Movement

  /** What the player sees from a pose: the nearest hit of each ray of the
      fan, in ray order. Slot i is empty exactly when ray i hits no wall, and
      otherwise holds the hit of some wall, a point of ray i, of least r among
      the hits of all walls. */
  function Sight(cfg: Settings, math: Math, pose: Pose): (slots: seq<Option<Hit>>)
    ensures |slots| == cfg.raysCount
    ensures forall i :: 0 <= i < |slots| ==>
              (slots[i].None? <==>
                 forall k :: 0 <= k < |cfg.walls| ==>
                   Intersect(cfg.walls[k], RayAt(cfg, math, pose.position, pose.angle, i)).None?)
    ensures forall i :: 0 <= i < |slots| && slots[i].Some? ==>
              HitPoint(slots[i].value) == At(RayAt(cfg, math, pose.position, pose.angle, i), slots[i].value.r)
    ensures forall i :: 0 <= i < |slots| && slots[i].Some? ==>
              && (exists k :: 0 <= k < |cfg.walls|
                    && Intersect(cfg.walls[k], RayAt(cfg, math, pose.position, pose.angle, i)) == slots[i])
              && (forall k ::
                    (0 <= k < |cfg.walls| && Intersect(cfg.walls[k], RayAt(cfg, math, pose.position, pose.angle, i)).Some?) ==>
                    slots[i].value.r <= Intersect(cfg.walls[k], RayAt(cfg, math, pose.position, pose.angle, i)).value.r)
  {
    var fan := RayFan(cfg, math, pose.position, pose.angle);
    seq(|fan|, i requires 0 <= i < |fan| => NearestHit(cfg.walls, fan[i]))
  }

  /** The strips of the frame seen from a pose: at most one per ray, each one
      column wide and centred on the middle row. A strip is drawn exactly for
      each ray whose nearest hit is at a positive distance, and it is that
      hit's strip, at column i with height screenHeight * zoom / dist. */
  function RenderedFrame(cfg: Settings, math: Math, pose: Pose): (f: seq<Strip>)
    requires Projectable(cfg)
    ensures |f| <= cfg.raysCount
    ensures FullColumns(cfg, f)
    ensures forall s :: s in f <==> exists i :: Drawn(cfg, math.sqrt, pose.position, Sight(cfg, math, pose), i, s)
  {
    var slots := Sight(cfg, math, pose);
    AllFrameMembers(cfg, math.sqrt, pose.position, slots);
    Frame(cfg, math.sqrt, pose.position, slots)
  }

  /** Every strip of a rendered frame lies within the screen's width, and the
      strips go strictly from left to right. */
  lemma RenderedFrameFits(cfg: Settings, math: Math, pose: Pose)
    requires Projectable(cfg) && cfg.screenWidth > 0.0
    ensures forall s :: s in RenderedFrame(cfg, math, pose) ==> 0.0 <= s.x && s.x + s.width <= cfg.screenWidth
    ensures LeftToRight(RenderedFrame(cfg, math, pose))
  {
    var slots := Sight(cfg, math, pose);
    forall s | s in Frame(cfg, math.sqrt, pose.position, slots)
      ensures 0.0 <= s.x && s.x + s.width <= cfg.screenWidth
    {
      FrameWithinScreen(cfg, math.sqrt, pose.position, slots, s);
    }
    FrameLeftToRight(cfg, math.sqrt, pose.position, slots);
    assert RenderedFrame(cfg, math, pose) == Frame(cfg, math.sqrt, pose.position, slots);
  }

  class Game {
    const settings: Settings
    const math: Math
    var position: Point
    var angle: real
    var rays: seq<Segment>
    var intersections: seq<Option<Hit>>

    function CurrentPose(): Pose
      reads this
    {
      Pose(position, angle)
    }

    /** A game at the given starting pose, with no rays and no intersections yet. */
    constructor (settings: Settings, math: Math, start: Pose)
      ensures this.settings == settings && this.math == math
      ensures CurrentPose() == start
      ensures rays == [] && intersections == []
    {
      this.settings := settings;
      this.math := math;
      position := start.position;
      angle := start.angle;
      rays := [];
      intersections := [];
    }

    /** Replaces the rays by the fan of the current pose. */
    method GenerateRays()
      modifies this`rays
      ensures rays == RayFan(settings, math, position, angle)
    {
      rays := [];
      var x, y := position.x, position.y;
      var angleDelta := if settings.raysCount == 0 then 0.0 else settings.playerSightAngle / settings.raysCount as real;
      var startAngle := angle - settings.playerSightAngle / 2.0;
      for i := 0 to settings.raysCount
        invariant |rays| == i
        invariant forall k :: 0 <= k < i ==> rays[k] == RayAt(settings, math, position, angle, k)
      {
        var theta := startAngle + i as real * angleDelta;
        assert angleDelta == AngleDelta(settings);
        assert theta == RayAngle(settings, angle, i);
        assert position == Point(x, y);
        var endX := x + settings.playerSightDistance * math.cos(theta);
        var endY := y - settings.playerSightDistance * math.sin(theta);
        var ray := RayAt(settings, math, position, angle, i);
        assert ray.b.x == endX && ray.b.y == endY;
        assert Segment(Point(x, y), Point(endX, endY)) == ray;
        rays := rays + [Segment(Point(x, y), Point(endX, endY))];
      }
    }

    /** Replaces the intersections by the nearest hit of each ray, in ray order. */
    method FindIntersections()
      modifies this`intersections
      ensures |intersections| == |rays|
      ensures forall i :: 0 <= i < |rays| ==> intersections[i] == NearestHit(settings.walls, rays[i])
    {
      intersections := [];
      for i := 0 to |rays|
        invariant |intersections| == i
        invariant forall k :: 0 <= k < i ==> intersections[k] == NearestHit(settings.walls, rays[k])
      {
        var hits := Present(Candidates(settings.walls, rays[i]));
        NearestHitOfPresent(settings.walls, rays[i], hits);
        if |hits| > 0 {
          var closest := hits[ClosestIndex(hits)];
          intersections := intersections + [Some(closest)];
        } else {
          intersections := intersections + [None];
        }
      }
    }

    /** The strips drawn for the current intersections, in slot order. */
    method Draw3DFrame() returns (strips: seq<Strip>)
      requires Projectable(settings)
      ensures strips == Frame(settings, math.sqrt, position, intersections)
    {
      var rectWidth := ColumnWidth(settings);
      strips := [];
      for i := 0 to |intersections|
        invariant strips == Frame(settings, math.sqrt, position, intersections[..i])
      {
        match intersections[i] {
          case Some(h) =>
            var dist := Distance(position, HitPoint(h), math.sqrt);
            if dist > 0.0 {
              var distCoef := DistCoef(settings, dist);
              var rectHeight := settings.screenHeight * distCoef;
              var y := (settings.screenHeight - rectHeight) / 2.0;
              var strip := Strip(i as real * rectWidth, y, rectWidth, rectHeight);
              assert strip == StripOf(settings, i, dist);
              strips := strips + [strip];
            }
          case None =>
        }
        FrameStep(settings, math.sqrt, position, intersections, i);
      }
      assert intersections[..|intersections|] == intersections;
    }

    /** One frame: the fan, the intersections, then the strips of the 3D view. */
    method UpdateFrame() returns (strips: seq<Strip>)
      requires Projectable(settings)
      modifies this`rays, this`intersections
      ensures rays == RayFan(settings, math, position, angle)
      ensures intersections == Sight(settings, math, CurrentPose())
      ensures |rays| == |intersections| == settings.raysCount
      ensures strips == RenderedFrame(settings, math, CurrentPose())
    {
      GenerateRays();
      FindIntersections();
      strips := Draw3DFrame();
      assert intersections == Sight(settings, math, CurrentPose());
    }

    /** A key press changes the pose in place, as Move says. */
    method HandlePlayerMovement(code: string)
      modifies this`position, this`angle
      ensures CurrentPose() == Move(settings, math, old(CurrentPose()), code)
    {
      if code == "ArrowUp" {
        position := position.(x := position.x + settings.playerMoveSpeed * math.cos(angle));
        position := position.(y := position.y - settings.playerMoveSpeed * math.sin(angle));
      } else if code == "ArrowDown" {
        position := position.(x := position.x - settings.playerMoveSpeed * math.cos(angle));
        position := position.(y := position.y + settings.playerMoveSpeed * math.sin(angle));
      } else if code == "ArrowLeft" {
        angle := angle - settings.playerRotateSpeed;
      } else if code == "ArrowRight" {
        angle := angle + settings.playerRotateSpeed;
      }
    }
  }
}
