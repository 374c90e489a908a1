/** The game's static configuration and the mathematical functions the engine
    takes from its host (square root, cosine, sine), which the model leaves
    abstract. */
module Config {
  import opened Geometry

  /** The settings the engine reads; map dimensions, which only size the
      top-down canvas, are not part of it. */
  datatype Settings = Settings(
    screenWidth: real,
    screenHeight: real,
    playerMoveSpeed: real,
    playerRotateSpeed: real,
    playerSightDistance: real,
    playerSightAngle: real,
    raysCount: nat,
    zoom: real,
    walls: seq<Segment>)

  /** Square root, cosine and sine, supplied by the host. */
  datatype Math = Math(sqrt: real -> real, cos: real -> real, sin: real -> real)

  /** What the projection of a frame needs of the settings: at least one ray
      (the strip width divides by the ray count) and a positive zoom (the
      distance coefficient divides by it). */
  predicate Projectable(cfg: Settings) {
    cfg.raysCount > 0 && cfg.zoom > 0.0
  }

  /** The shipped settings: a 300 x 200 screen, 100 rays over a field of view
      of 0.27 pi, sight distance 250, zoom 25, and eight walls: the four sides
      of the 300 x 300 map and four inner walls. */
  function DefaultSettings(pi: real): (cfg: Settings)
    ensures Projectable(cfg)
    ensures |cfg.walls| == 8
    ensures cfg.playerSightAngle / cfg.raysCount as real == 0.0027 * pi
  {
    Settings(
      300.0, 200.0, 2.0, 0.02 * pi, 250.0, 0.27 * pi, 100, 25.0,
      [ Segment(Point(0.0, 0.0), Point(0.0, 300.0)),
        Segment(Point(0.0, 0.0), Point(300.0, 0.0)),
        Segment(Point(300.0, 0.0), Point(300.0, 300.0)),
        Segment(Point(0.0, 300.0), Point(300.0, 300.0)),
        Segment(Point(100.0, 150.0), Point(200.0, 150.0)),
        Segment(Point(100.0, 120.0), Point(100.0, 150.0)),
        Segment(Point(0.0, 180.0), Point(50.0, 180.0)),
        Segment(Point(0.0, 100.0), Point(50.0, 180.0)) ])
  }
}
