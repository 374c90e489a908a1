# Pseudo3D ray caster

This project models the ray-casting core of Pseudo3D, a browser demo that draws a
first-person 3D view of a 2D map of wall segments. Each frame the player casts a fan
of rays across their field of view. Every ray is tested against every wall. The
nearest hit of each ray becomes one vertical strip of the 3D view, and the strip is
taller when the wall is closer. The arrow keys move the player forwards and backwards
along the facing angle, or turn the player.

The model works over exact real numbers. It has six modules:

- `Geometry`: points, segments and the segment intersection test (Cramer's rule), plus the distance.
- `Config`: the settings and the shipped defaults. Square root, cosine and sine are left abstract.
- `Casting`: the ray fan and the nearest hit of one ray (the map / filter / reduce of the source).
- `Projection`: the strip drawn for each intersection slot.
- `Movement`: the pose update on a key code.
- `Engine`: the game state as a class. Its methods rebuild the rays and intersections in place, draw
  the frame, and change the pose in place on a key press. Each method is proved against the
  functions of the other modules.

The intersection test follows the code's naming. `r` is the parameter along the ray
and `s` the parameter along the wall. The hit point is computed from the wall, as
`A + s * (B - A)`. The nearest hit is the hit of least `r`. On ties the reduction
keeps the earlier wall.

## Model

| member | source | states |
|---|---|---|
| Geometry.Intersect | script.js:133-145 | parallel or collinear pairs (zero denominator) never hit; a hit's ray parameter r lies in [0, 1] |
| Geometry.IntersectOnBoth | script.js:134-141 | a returned hit lies on the wall at a wall parameter in [0, 1] and on the ray at the returned r |
| Geometry.IntersectComplete | script.js:133-145 | conversely, a non-parallel wall and ray sharing a point within both segments always yield that point, with its ray parameter as r |
| Geometry.CramerSolves | script.js:134-138 | the denominator and two numerators solve the 2x2 system wall(s) == ray(r) |
| Geometry.CramerUnique | script.js:134-138 | that solution is the only one when the denominator is non-zero |
| Geometry.EndpointHit | script.js:140-141 | the bound test is inclusive: a ray ending exactly on a wall hits it at r == 1 |
| Geometry.SquaredDistance | script.js:65-66 | the squared distance is never negative and is zero from a point to itself |
| Geometry.Distance | script.js:65-66 | given a true square root, the distance is the non-negative number whose square is the squared distance |
| Geometry.DistanceSymmetric | script.js:65-66 | the distance from A to B equals the distance from B to A |
| Config.DefaultSettings | script.js:2-47 | the shipped settings can be projected (100 rays, zoom 25), have eight walls and an angle step of 0.0027 pi |
| Casting.RayAngle | script.js:99-103 | with at least one ray, ray i lies i - raysCount / 2 angle steps from the facing angle |
| Casting.RayAt | script.js:103-110 | ray i starts at the player's position; where cos^2 + sin^2 == 1 at its angle, its squared length is the sight distance squared |
| Casting.RayFan | script.js:96-112 | the fan has raysCount rays, all starting at the player's position |
| Casting.FanEvenlySpaced | script.js:99-103 | ray 0 starts half the field of view before the facing angle; neighbouring rays are one step apart; raysCount steps make the whole field of view |
| Casting.FanCentred | script.js:99-103 | ray i and ray raysCount - i lie symmetrically about the facing angle |
| Casting.FanWithinSight | script.js:99-103 | every ray's angle lies in [angle - sightAngle / 2, angle + sightAngle / 2) |
| Casting.Candidates | script.js:118-119 | candidate k is the test of wall k against the ray; every candidate hit is the ray's point at its r, and the point of wall k at a wall parameter in [0, 1] |
| Casting.Present | script.js:120 | the filter keeps every hit among the candidates and nothing else, and never lengthens the list |
| Casting.PresentInOrder | script.js:120 | the filter keeps one entry per hit and keeps the candidates' order: hit j is a candidate with exactly j hits before it |
| Casting.Closest | script.js:122-129 | None exactly when no candidate is a hit; otherwise one of the candidates, of least r among the hits |
| Casting.NearestHit | script.js:118-129 | None exactly when the ray hits no wall; otherwise the hit of some wall, on the ray at its r with r in [0, 1], and of least r among the hits of all walls |
| Casting.ClosestIndex | script.js:123-125 | the reduction with a strict `<` ends at a hit of least r, and at the first such hit |
| Casting.ClosestStep | script.js:118-125 | one more wall at the end changes the nearest hit by exactly one reduction step: it replaces it only when strictly nearer |
| Casting.ClosestIsFirstMinimum | script.js:122-129 | a closest hit is the first candidate of least r: on equal r the earlier wall wins |
| Casting.FirstNearestUnique | script.js:123-125 | at most one candidate is the first one of least r |
| Casting.ClosestSameElements | script.js:117-130 | two candidate lists of one ray with the same elements have the same nearest hit |
| Casting.NearestHitOrderFree | script.js:117-130 | reordering the walls does not change the nearest hit, ties included |
| Casting.NearerWallWins | script.js:117-130 | when two walls are hit at r1 < r2, a hit is found, it is at most r1 away and it is never the farther wall's hit |
| Projection.ColumnWidth | script.js:176 | raysCount columns of this width fill the screen's width exactly |
| Projection.DistCoef | script.js:181 | the coefficient 1 / (dist / zoom) is zoom / dist for a positive distance |
| Projection.StripOf | script.js:177-189 | a strip is screenHeight * zoom / dist tall, centred on the middle row of the screen, screenWidth / raysCount wide and starts at column i times its width |
| Projection.StripShorterWhenFarther | script.js:182-184 | a farther hit gives a strictly shorter strip whose top is strictly lower |
| Projection.ColumnsTile | script.js:177-189 | column i + 1 starts where column i ends, and the last column ends at the right edge of the screen |
| Projection.Column | script.js:180-189 | a slot draws at most one strip and a slot without a hit draws none; the strip starts at column i, is one column wide and is centred |
| Projection.Frame | script.js:179-191 | a frame has at most one strip per slot, each one column wide and centred on the middle row |
| Projection.FrameMembers | script.js:179-191 | a frame holds a strip exactly when some slot holds a hit at a positive distance and the strip is that slot's strip |
| Projection.FrameLeftToRight | script.js:179-189 | the strips of a frame go strictly from left to right |
| Projection.FrameWithinScreen | script.js:177-189 | with at most raysCount slots, every strip lies within the screen's width |
| Engine.Sight | script.js:229-230 | one slot per ray; slot i is empty exactly when ray i hits no wall, and otherwise holds the hit of some wall, a point of ray i at its r, of least r among the hits of all walls |
| Engine.RenderedFrame | script.js:229-235 | the frame seen from a pose has at most one strip per ray, each one column wide and centred on the middle row; a strip is drawn exactly for each ray whose nearest hit is at a positive distance, and it is that hit's strip (`Projection.Drawn`: column i, height screenHeight * zoom / dist) |
| Engine.RenderedFrameFits | script.js:227-236 | every strip of a frame seen from any pose lies within the screen and the strips go from left to right |
| Engine.Game.constructor | script.js:49-57 | a new game is at the given pose with no rays and no intersections |
| Engine.Game.GenerateRays | script.js:96-112 | the rays are replaced by the fan of the current pose |
| Engine.Game.FindIntersections | script.js:114-131 | the intersections are replaced by one slot per ray, in ray order, holding that ray's nearest hit or None |
| Engine.Game.Draw3DFrame | script.js:176-192 | the strips drawn are the frame of the current intersections seen from the player's position |
| Engine.Game.UpdateFrame | script.js:227-236 | after one frame the rays are the fan of the current pose, the intersections are what is seen from it (raysCount of each, matched by index), and the strips drawn are the frame seen from it |
| Engine.Game.HandlePlayerMovement | script.js:242-263 | the pose changes in place exactly as Movement.Move says for the key code |
| Movement.InitialPose | script.js:51-54 | the game starts at (75, 100), strictly inside the outer walls of the shipped map |
| Movement.Move | script.js:242-263 | turn keys keep the position, move keys keep the angle, and every other key leaves the pose unchanged |
| Movement.Opposite | script.js:243-261 | the opposite of a move key is a move key, and the opposite of a turn key is a turn key |
| Movement.MoveUndone | script.js:243-261 | a key press followed by its opposite restores the pose |
| Movement.Undo | script.js:243-261 | the undoing sequence holds the opposite keys, last press first |
| Movement.ReplayAppend | script.js:242-263 | replaying two sequences of key presses one after the other is replaying their concatenation |
| Movement.ReplayUndone | script.js:242-263 | any sequence of key presses followed by the undoing sequence returns the player to the starting pose |

## Left out

- Drawing: the canvases, the clearing, the top-down map (walls, player, rays and hit markers) and the background gradient are left out. They are I/O. `Draw3DFrame` returns the rectangles it would fill instead of filling them.
- The colour string of a strip (`255 * distCoef` in each channel) is left out. It is presentation only, and the source does not clamp it.
- The timer loop, the keydown listener, `init` and the canvas creation are left out. `UpdateFrame` is one tick of the loop, and `HandlePlayerMovement` receives the key code directly.
- The map width and height are left out of `Config.Settings`. They only size the top-down canvas.
- Floating point is left out. Coordinates are exact reals. NaN and Infinity are modelled only where the source depends on them:
  - A zero denominator gives an infinite or NaN parameter, which fails the bound test. The model returns None for it explicitly.
  - A hit at distance zero gives an infinite height, and the canvas ignores a rectangle that is not finite. The model draws no strip when the distance is not positive.
- Square root, cosine and sine are parameters (`Config.Math`), not their real definitions. Properties that need their values are stated under an explicit hypothesis instead: `Casting.RayAt` assumes cos^2 + sin^2 == 1 at the ray's angle, and `Geometry.Distance` assumes `Geometry.IsSquareRoot`.
- Geometry.SquaredDistance: does not state the converse, that the squared distance is zero only when the points coincide. No property of the model needs it.
- Projection.StripOf, Projection.ColumnWidth, Projection.DistCoef, Projection.Column, Projection.Frame, Engine.RenderedFrame, Engine.Game.Draw3DFrame and Engine.Game.UpdateFrame: require at least one ray and a positive zoom (`Config.Projectable`). The source runs a frame with any settings and divides by both. Without the requirement:
  - With no rays, the strip width is +Infinity. No strip is drawn, because the frame's rays, and so its intersections, are empty.
  - With zoom 0, the distance coefficient is 1 / (+Infinity) = 0. Every strip is then a finite rectangle of height 0, which draws nothing visible. The model does not describe these zero-height calls.
  - With a negative zoom, the height is negative. The canvas draws such a rectangle upward from its y, which gives the same centred strip as for the absolute zoom, in black because the colour goes negative. The model does not describe this case.
- Casting.AngleDelta: with no rays, the source's step is the sight angle divided by 0, which is +Infinity for the shipped positive angle (NaN only if the angle is 0 too). The loop never runs, so the step is never used. The model guards the division with a 0 step instead.
- Engine.Game.constructor: takes the starting pose as a parameter rather than fixing it. The shipped start, (75, 100) facing 1.5 pi, is `Movement.InitialPose`.
- The source keeps the player position as an object whose fields it updates. The model holds it as a `Point` value that the class field replaces, which is the same for a single owner.
