/** What one key press does to the player's pose: the arrow keys move forwards
    and backwards along the facing angle or turn the player; every other key
    code leaves the pose alone. There is no collision with walls. */
module Movement {
  import opened Geometry
  import opened Config

  datatype Pose = Pose(position: Point, angle: real)

  /** The pose the game starts in: at (75, 100), strictly inside the outer
      walls of the shipped map, facing 1.5 pi. */
  function InitialPose(pi: real): (p: Pose)
    ensures var walls := DefaultSettings(pi).walls;
            && walls[0].a.x < p.position.x < walls[2].a.x
            && walls[1].a.y < p.position.y < walls[3].a.y
  {
    Pose(Point(75.0, 100.0), 1.5 * pi)
  }

  predicate IsMoveKey(code: string) {
    code == "ArrowUp" || code == "ArrowDown"
  }

  predicate IsTurnKey(code: string) {
    code == "ArrowLeft" || code == "ArrowRight"
  }

  /** The pose after one key press. Forward adds the step (speed * cos, -speed
      * sin) of the facing angle, backward subtracts it; left turns by minus
      the rotation speed, right by plus it. */
  function Move(cfg: Settings, math: Math, pose: Pose, code: string): (next: Pose)
    ensures IsTurnKey(code) ==> next.position == pose.position
    ensures IsMoveKey(code) ==> next.angle == pose.angle
    ensures !IsMoveKey(code) && !IsTurnKey(code) ==> next == pose
  {
    var p, a := pose.position, pose.angle;
    var dx, dy := cfg.playerMoveSpeed * math.cos(a), cfg.playerMoveSpeed * math.sin(a);
    if code == "ArrowUp" then Pose(Point(p.x + dx, p.y - dy), a)
    else if code == "ArrowDown" then Pose(Point(p.x - dx, p.y + dy), a)
    else if code == "ArrowLeft" then Pose(p, a - cfg.playerRotateSpeed)
    else if code == "ArrowRight" then Pose(p, a + cfg.playerRotateSpeed)
    else pose
  }

  /** The key that undoes a key: the opposite arrow; any other code undoes
      itself, since it does nothing. */
  function Opposite(code: string): (back: string)
    ensures IsMoveKey(code) <==> IsMoveKey(back)
    ensures IsTurnKey(code) <==> IsTurnKey(back)
  {
    if code == "ArrowUp" then "ArrowDown"
    else if code == "ArrowDown" then "ArrowUp"
    else if code == "ArrowLeft" then "ArrowRight"
    else if code == "ArrowRight" then "ArrowLeft"
    else code
  }

  /** Over exact reals, a key press followed by its opposite restores the pose:
      forward then backward restores the position (the angle is the same for
      both steps), left then right restores the angle. */
  lemma MoveUndone(cfg: Settings, math: Math, pose: Pose, code: string)
    ensures Move(cfg, math, Move(cfg, math, pose, code), Opposite(code)) == pose
  {
  }

  /** The pose after a sequence of key presses, first to last. */
  function Replay(cfg: Settings, math: Math, pose: Pose, codes: seq<string>): Pose
    decreases |codes|
  {
    if |codes| == 0 then pose else Replay(cfg, math, Move(cfg, math, pose, codes[0]), codes[1..])
  }

  /** The presses that undo a sequence: the opposites, last press first. */
  function Undo(codes: seq<string>): (back: seq<string>)
    ensures |back| == |codes|
    ensures forall i :: 0 <= i < |codes| ==> back[i] == Opposite(codes[|codes| - 1 - i])
  {
    if |codes| == 0 then [] else Undo(codes[1..]) + [Opposite(codes[0])]
  }

  lemma {:induction false} ReplayAppend(cfg: Settings, math: Math, pose: Pose, first: seq<string>, second: seq<string>)
    ensures Replay(cfg, math, pose, first + second)
         == Replay(cfg, math, Replay(cfg, math, pose, first), second)
    decreases |first|
  {
    if |first| > 0 {
      assert (first + second)[1..] == first[1..] + second;
      ReplayAppend(cfg, math, Move(cfg, math, pose, first[0]), first[1..], second);
    } else {
      assert first + second == second;
    }
  }

  /** Any sequence of key presses, followed by the opposite presses in reverse
      order, returns the player exactly to the starting pose. */
  lemma {:induction false} ReplayUndone(cfg: Settings, math: Math, pose: Pose, codes: seq<string>)
    ensures Replay(cfg, math, Replay(cfg, math, pose, codes), Undo(codes)) == pose
    decreases |codes|
  {
    if |codes| > 0 {
      var c, rest := codes[0], codes[1..];
      var moved := Move(cfg, math, pose, c);
      var there := Replay(cfg, math, moved, rest);
      assert Replay(cfg, math, pose, codes) == there;
      ReplayAppend(cfg, math, there, Undo(rest), [Opposite(c)]);
      ReplayUndone(cfg, math, moved, rest);
      MoveUndone(cfg, math, pose, c);
    }
  }
}
