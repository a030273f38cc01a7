# Brick breaker: the game rules

A model of the rules of a single-player brick-breaking game written with
tkinter. Ball direction logic, brick hit counters, the paddle's physics step
and the per-tick game state machine are modelled without the window. They are
pure functions and small methods over immutable datatypes with `real`
coordinates. Canvas coordinates are plain numbers and the canvas's overlap
query is a closed rectangle intersection. The random side choice for an extra
ball is a caller-supplied coin. Rescheduling is replaced by an outcome tag:
`Continue`, `Win`, `GameOver` or `Reset`.

Modules, one per part of `Modified.py`:

- `Geometry`: bounding boxes (`Rect`, left/top/right/bottom, y grows
  downwards), translation and overlap.
- `Balls`: the `Ball` datatype and `Ball.update` / `Ball.collide`. The objects
  a ball touches (`Obj`) are the paddle or a brick with its index.
- `Bricks`: the colour table, `Brick.hit` and the brick wall built by the
  game's constructor.
- `Paddles`: `Paddle.update_physics` with acceleration 1.5, friction 0.85,
  speed limit 12.0 and stop threshold 0.1.
- `Game`: the collision query, the per-ball step, the extra-ball spawning
  with its cap of 15, the win / lost-ball / continue decision, and
  round setup and start.
- `Wrappers`: `Option`.

Behaviour of `Modified.py` worth knowing:

- After the last ball is lost with lives left, `setup_game` shows "Press Space
  to start" again and waits for the key (`Modified.py:272-281`). The next
  round starts only when the player launches it (`Game.StartGame`).
- An extra ball starts heading down the canvas: `direction[1] = 1`
  (`Modified.py:295`).
- A ball's position is recorded for spawning when it hits any brick, whether
  or not the brick was destroyed (`Modified.py:330-331`).
- `start_game` clears `paddle.ball` before the first tick
  (`Modified.py:318`). The ride-along branch of the paddle step therefore
  never fires during play. `Game.Tick` still models it through the `carried`
  flag, which stays set only while the carried ball is in play
  (`Game.KeepsCarried`). Once that ball leaves through the bottom it is
  deleted and removed from the list (`Modified.py:333-335`), but
  `paddle.ball` still refers to it. The paddle step then moves only a deleted
  canvas item, and no ball in play rides along.

## Model

| member | source | states |
|---|---|---|
| Balls.NewBall | Modified.py:22-30 | a new ball is a 20x20 box centred on the given point, direction (1, -1), speed 3.0 |
| Balls.Update | Modified.py:32-41 | dx is negated exactly when left <= 0 or right >= width, dy exactly when top <= 0; the ball then moves by the post-flip direction times its speed; unit directions stay unit |
| Balls.UpdateStaysNearField | Modified.py:32-41 | a ball inside the field ends the tick no more than one step past either wall |
| Balls.LeftWallTrap | Modified.py:35-41 | a ball sitting a full step inside the left wall while heading right turns back into the wall and, two ticks later, is at the same horizontal position heading right again: it never leaves the wall |
| Balls.BrickIds | Modified.py:58-64 | the bricks hit are exactly the bricks in the object list; the paddle is never among them |
| Balls.BrickIdsEmpty | Modified.py:58-64 | no brick is hit exactly when the object list holds no brick |
| Balls.BrickIdsAscending | Modified.py:59-62 | when the list reports bricks in creation order, the bricks hit are in that order and none is hit twice |
| Balls.Collide | Modified.py:43-64 | no objects: direction unchanged; several: only dy negated; one: dx := 1 right of its right edge, dx := -1 left of its left edge, otherwise dy negated; every brick in the list is hit, including in the several-objects branch; reports a hit iff a brick is in the list; position and speed unchanged |
| Balls.PaddleContact | Modified.py:46-56 | touching only the paddle: centre left of it sends the ball left, right of it sends it right, over it bounces vertically; nothing is hit |
| Bricks.NewBrick | Modified.py:129-141 | a new brick is a 75 wide, 20 high box centred on the point, on the canvas, in the colour of its hit count |
| Bricks.Hit | Modified.py:143-149 | the count drops by exactly one; an on-canvas brick is deleted iff the count reaches 0, otherwise it is recoloured to the table entry of the new count; box unchanged |
| Bricks.HitTimes | Modified.py:143-149 | after n hits a brick with h hits has h - n left, stays consistent, and is on the canvas iff n < h |
| Bricks.Countdown | Modified.py:129-149 | a brick created with h in {1,2,3} is on the canvas, coloured for h - n, for n < h hits and removed by exactly the h-th |
| Bricks.ThreeHitColours | Modified.py:127-149 | a 3-hit brick shows the colours of 2 and then 1, and is gone after the third hit |
| Bricks.Range | Modified.py:176 | the loop visits start, start + 75, ... below stop: ceil((stop - start) / 75) values |
| Bricks.Wall | Modified.py:176-179 | the wall has three bricks per column, all on the canvas and consistent |
| Bricks.WallLayout | Modified.py:176-179 | brick k of the wall sits in column k / 3, centred 37.5 right of that column's left edge, at height 50, 70 or 90 for row k % 3, with 3, 2 or 1 hits |
| Bricks.WallHits | Modified.py:176-179 | each column takes 3 + 2 + 1 = 6 hits to clear |
| Bricks.InitialWall | Modified.py:176-179 | on the 610-wide field the wall built by `Bricks.InitialBricks` (one column per x in range(5, 605, 75)) is 24 bricks taking 48 hits |
| Paddles.NewPaddle | Modified.py:68-84 | a new paddle is 120 wide and 12 high, centred on the point, at rest |
| Paddles.Driven | Modified.py:90-100 | the driven velocity lies in [-12, 12]; with no key it is at most 0.85 of the old speed; from a speed within the limit the clamp never binds |
| Paddles.UpdatePhysics | Modified.py:89-123 | velocity ends in [-12, 12]; a left correction lands at left = 0 and a right correction at right = width, both with velocity 0 and the ball left in place; below 0.1 the paddle stops where it is; otherwise the paddle and the carried ball (`Paddles.MoveBall`) move by exactly the velocity; a paddle inside the field stays inside |
| Paddles.RunStaysInField | Modified.py:102-116 | over any sequence of key states a paddle that starts inside the field stays inside with its speed within the limit |
| Paddles.CoastFive | Modified.py:95-119 | five ticks with no key at least halve the paddle's speed |
| Paddles.CoastHalves | Modified.py:95-119 | 5k ticks with no key divide the speed by at least 2^k |
| Paddles.CoastStops | Modified.py:118-119 | with no key held, a paddle at any allowed speed is at rest within 36 ticks: no endless drift |
| Game.LiveCount | Modified.py:341 | the brick count is zero iff no brick is on the canvas |
| Game.LiveCountMonotone | Modified.py:143-146 | deleting bricks never raises the brick count |
| Game.BricksTouching | Modified.py:354-357 | the bricks reported for a box are exactly the live bricks overlapping it, in creation order, with their boxes |
| Game.Overlapping | Modified.py:354-357 | the collision list reports the paddle first iff it overlaps, then exactly the live overlapping bricks in creation order |
| Game.ApplyHits | Modified.py:59-62 | hitting the listed bricks one after another hits each listed brick once and leaves the others unchanged |
| Game.CollideHits | Modified.py:354-358 | the bricks a ball hits are exactly the live bricks overlapping its box, each once, each able to take the hit |
| Game.CollideHitBrick | Modified.py:58-64 | a ball reports a brick hit iff a live brick overlaps its box |
| Game.StepBall | Modified.py:328-335 | one ball flies and takes the direction its collision gives it; it hits exactly the live bricks overlapping its new box, records that box iff it hit one (iff the wall changed), and is dropped iff its bottom reaches the field height |
| Game.Bounce | Modified.py:329-330 | a ball after its flight and contact is at its new box, keeps its speed, and keeps a unit direction unit |
| Game.WallAfter | Modified.py:329-330 | after one ball's flight exactly the live bricks overlapping its new box have taken one hit; the others are unchanged; the wall stays consistent |
| Game.Turns | Modified.py:327-335 | the ball loop as a definition: each ball in order flies and bounces (`Bounce`) against the wall the earlier balls left (`WallAfter`), is kept iff its new bottom is above the field height, and has its new box recorded iff it overlaps a live brick |
| Game.TurnsKeep | Modified.py:328-335 | the balls the loop keeps are in play and their boxes are exactly the survivors' new boxes, in order |
| Game.TurnsUnitDir | Modified.py:328-335 | balls with unit directions keep them through the loop |
| Game.TurnsSpeed | Modified.py:328-335 | balls at speed 3.0 keep that speed through the loop |
| Game.TurnsWear | Modified.py:328-335 | after the loop every brick some ball's new box overlapped while it was live has lost hits, and every other brick is unchanged |
| Game.StrikeChanges | Modified.py:329-331 | a ball whose new box overlaps a live brick wears some brick down; otherwise the wall is unchanged |
| Game.HitsStep | Modified.py:328-331 | one more turn keeps "a hit is recorded iff the wall changed" |
| Game.TurnsHits | Modified.py:327-335 | after the loop a brick hit has been recorded iff the wall changed |
| Game.TurnsNext | Modified.py:328-335 | what `StepBall` returns for ball i, appended to the loop's state after i balls, is the loop's state after i + 1 balls |
| Game.MoveOne | Modified.py:328-335 | one ball's turn, computed with `StepBall`, takes the loop's state after i balls to its state after i + 1 balls, as `Turns` defines it |
| Game.MoveBalls | Modified.py:327-335 | the loop computes exactly `Turns`: the balls kept are the bounced survivors, in order, with the directions their contacts gave them and their speeds; their boxes are exactly the survivors' new boxes; every brick some ball's new box overlapped while live has lost hits and every other brick is unchanged; a hit is recorded iff the wall changed |
| Game.SpawnedBall | Modified.py:290-296 | an extra ball is centred on the recorded box, with dy = 1, dx = +1 or -1 by the coin, at speed 3.0 |
| Game.Spawn | Modified.py:337-339 | the old balls are kept and one extra ball per recorded box is added while fewer than 15 are in play: at most 15 if at most 15 before |
| Game.SpawnShape | Modified.py:337-339 | spawning adds no ball without a recorded hit, at least one when there is a hit and room, at most one per hit, never past 15, and only moving, downward balls with unit direction |
| Game.Freeze | Modified.py:343 | every ball's speed is switched off and nothing else changes |
| Game.Launched | Modified.py:122-123 | after the paddle step the resting ball has moved with the paddle when the paddle moved normally and not otherwise; no other ball moves |
| Game.Advance | Modified.py:321-339 | the moving part of a tick is exactly `Moved`: the paddle's physics step, the balls of `Turns` against the starting wall with the directions their contacts gave them, then `Spawn` of the recorded boxes with the coin; and, as `Motion` states it: the paddle takes its physics step; the first balls are the survivors of the flight at their new positions, in order; the others are downward extra balls, at most one per ball, none unless a brick was hit, at least one if a brick was hit and fewer than 15 survived, never past 15; exactly the bricks some ball struck are worn down; lives untouched; the running invariant, which includes every ball flying at speed 3.0, is kept; the paddle still carries a ball iff it carried one and that ball's new box is above the bottom edge |
| Game.MovedCarried | Modified.py:328-335 | while the paddle keeps its ball after the moving part of a tick, that ball is the first one, at the position its own turn gave it after the paddle step carried it |
| Game.TurnsGrow | Modified.py:328-335 | the balls kept after the first m turns are a prefix of those kept after all turns: later balls only join behind |
| Game.TurnsFirst | Modified.py:328-335 | a first ball whose new box is above the bottom edge is the first ball kept, bounced against the wall as the tick found it |
| Game.FirstKept | Modified.py:328-339 | such a first ball is still the first ball once the extra balls have been added |
| Game.Decide | Modified.py:341-352 | no live bricks: win with all speeds off; else no balls: one life lost, game over iff lives < 0, a new round otherwise; else continue with the state unchanged |
| Game.LastBallLost | Modified.py:345-350 | losing the last ball with 3 lives leads to a new round with 2; with 0 lives it is game over at -1 |
| Game.MotionIgnoresSpeed | Modified.py:342-343 | switching every ball's speed off on a win leaves the tick's movement facts intact |
| Game.Concluded | Modified.py:341-352 | the end of a tick applied to any state the moving part can produce: outcome priority win > lost ball > continue; lives decremented only on a lost ball; ball cap kept; brick count never rises; running invariant kept unless won; the movement facts of `Motion` survive the win's speed switch-off |
| Game.Tick | Modified.py:321-352 | a whole tick is exactly `Decide` applied to `Moved`, so the surviving balls take the directions their contacts gave them and, unless the game is won, keep speed 3.0; and it keeps the promises of `Ticked`: the movement of `Motion` for every outcome, outcome priority win > lost ball > continue, lives decremented only on a lost ball, ball cap kept, brick count never rising, running invariant kept unless won, the paddle still carrying a ball iff it carried one that stayed in play |
| Game.SetupRound | Modified.py:272-288 | a round starts with exactly one new ball (20x20, direction (1, -1), speed 3.0) centred above the paddle at y = 310, resting on it; lives, paddle and bricks unchanged |
| Game.StartGame | Modified.py:315-318 | launching lets go of the ball and changes nothing else |
| Game.NewGame | Modified.py:153-182 | a new game has 3 lives, exactly the wall of `InitialBricks` (24 live consistent bricks), the paddle at rest centred on x = 305, and one resting ball, a new ball centred on (305, 310) |
| Game.NewGameWall | Modified.py:176-179 | the new game's wall has 24 live bricks taking 48 hits |
| Game.NewGameInv | Modified.py:153-182 | the new game satisfies the running invariant on any canvas at least 365 wide |

## Left out

- Window, canvas drawing, fonts, the health display and the banners
  (`draw_text`, `update_lives_text`): presentation only. The banners appear as
  the `Win`, `GameOver` and `Reset` outcomes.
- Background image and GIF animation (`load_background`,
  `animate_background`): file I/O and timers, with no effect on play.
- Key events and the held-key set: `Game.Tick` takes the two booleans for the
  Left and Right keys. The space-bar binding is the `Game.StartGame` function.
- `after(...)` scheduling, the 16 ms and 1000 ms delays and `mainloop`: a tick
  returns its outcome tag instead of rescheduling itself.
- tk's hit testing: the overlap query is a closed axis-aligned rectangle
  intersection. Results come in stacking order: the paddle first, then bricks
  in creation order. Outline widths and tk's halo are not modelled.
- `random.choice`: a coin `nat -> bool` indexed by the number of extra balls
  spawned so far in the tick.
- IEEE floating point: positions and velocities are exact `real`s.
- The canvas's reported width (`winfo_width`) is a parameter. It is kept in
  the game state apart from the configured 610 used to lay out the bricks.
- Python failures are preconditions, not modelled error paths. `Balls.Update`
  requires a speed, because the source raises a TypeError on `None * int`.
  `Bricks.Hit` and `Bricks.NewBrick` require a count in the colour table,
  because the source raises a KeyError otherwise. The game never reaches
  either.
- `GameObject` as a base class: position, move and delete become datatype
  fields and functional updates. Deleted bricks stay in the game's brick list
  with `onCanvas` false, as they stay in the source's `items` map.
