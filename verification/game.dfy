/** The game: lives, the paddle, the live balls and the brick wall, and the
    per-tick state machine of `Game.game_loop` (move the paddle, move and
    collide every ball, drop the balls that left through the bottom, spawn
    extra balls for brick hits, then decide between win, lost ball and
    continuing). Scheduling is replaced by the outcome tag a tick returns. */
module Game {
  import opened Wrappers
  import opened Geometry
  import opened Balls
  import opened Bricks
  import opened Paddles

  /** The configured field size; the ball and paddle use the width the canvas
      reports, which is kept in the state separately. */
  const FieldWidth: int := 610
  const FieldHeight: real := 400.0
  const StartLives: int := 3
  /** Most balls in play at once for extra balls to be spawned. */
  const BallCap: nat := 15
  const PaddleY: real := 326.0
  const BallStartY: real := 310.0

  /** `carried` records that the paddle holds a reference to the first ball
      (the ball resting on it before launch). */
  datatype GameState = GameState(
    lives: int, width: real, paddle: Paddle, carried: bool,
    balls: seq<Ball>, bricks: seq<Brick>)

  /** What a tick decides: schedule the next tick, show the win banner, show
      the game-over banner, or set up a new round after a delay. */
  datatype Outcome = Continue | Win | GameOver | Reset

  datatype TickResult = TickResult(state: GameState, outcome: Outcome)

  predicate AllValid(bricks: seq<Brick>)
  {
    forall j :: 0 <= j < |bricks| ==> Valid(bricks[j])
  }

  predicate AllMoving(balls: seq<Ball>)
  {
    forall k :: 0 <= k < |balls| ==> balls[k].speed.Some?
  }

  predicate AllUnitDir(balls: seq<Ball>)
  {
    forall k :: 0 <= k < |balls| ==> UnitDir(balls[k])
  }

  /** The number of bricks still on the canvas (the bricks found by tag). */
  function LiveCount(bricks: seq<Brick>): (n: nat)
    ensures n <= |bricks|
    ensures n == 0 <==> forall j :: 0 <= j < |bricks| ==> !bricks[j].onCanvas
  {
    if |bricks| == 0 then 0
    else
      assert forall j :: 1 <= j < |bricks| ==> bricks[j] == bricks[1..][j - 1];
      (if bricks[0].onCanvas then 1 else 0) + LiveCount(bricks[1..])
  }

  /** Deleting bricks never adds live ones. */
  lemma {:induction false} LiveCountMonotone(before: seq<Brick>, after: seq<Brick>)
    requires |before| == |after|
    requires forall j :: 0 <= j < |after| && after[j].onCanvas ==> before[j].onCanvas
    ensures LiveCount(after) <= LiveCount(before)
  {
    if |before| > 0 {
      LiveCountMonotone(before[1..], after[1..]);
    }
  }

  // ---------------------------------------------------------------------
  // Collision query

  /** Brick `j` is on the canvas and overlaps `box`. */
  predicate Touches(bricks: seq<Brick>, box: Rect, j: nat)
  {
    j < |bricks| && bricks[j].onCanvas && Overlaps(bricks[j].box, box)
  }

  /** Some brick on the canvas overlaps `box`. */
  predicate StrikesWall(bricks: seq<Brick>, box: Rect)
  {
    exists j :: 0 <= j < |bricks| && Touches(bricks, box, j)
  }

  /** The bricks from index `from` on that are on the canvas and overlap
      `box`, in creation order. */
  function BricksTouching(bricks: seq<Brick>, box: Rect, from: nat): (objs: seq<Obj>)
    requires from <= |bricks|
    ensures forall i :: 0 <= i < |objs| ==> objs[i].BrickObj? && from <= objs[i].id < |bricks|
    ensures forall i :: 0 <= i < |objs| ==> objs[i].box == bricks[objs[i].id].box
    ensures forall id :: Reports(objs, id) <==> from <= id && Touches(bricks, box, id)
    ensures AscendingBrickIds(objs)
    decreases |bricks| - from
  {
    if from == |bricks| then []
    else
      var rest := BricksTouching(bricks, box, from + 1);
      if Touches(bricks, box, from) then
        var objs := [BrickObj(from, bricks[from].box)] + rest;
        ReportsCons(objs[0], rest);
        assert forall i :: 1 <= i < |objs| ==> objs[i] == rest[i - 1];
        objs
      else
        rest
  }

  /** The game objects overlapping `box`, as the canvas reports them: the
      paddle (created first) and then every brick still on the canvas, in
      creation order. Balls and text are not game objects. */
  function Overlapping(paddle: Paddle, bricks: seq<Brick>, box: Rect): (objs: seq<Obj>)
    ensures forall id :: Reports(objs, id) <==> Touches(bricks, box, id)
    ensures forall i :: 0 <= i < |objs| && objs[i].BrickObj? ==>
      objs[i].id < |bricks| && objs[i].box == bricks[objs[i].id].box
    ensures AscendingBrickIds(objs)
    ensures forall i :: 0 <= i < |objs| && objs[i].PaddleObj? ==> i == 0 && objs[i].box == paddle.box
    ensures (|objs| > 0 && objs[0].PaddleObj?) <==> Overlaps(paddle.box, box)
  {
    var touching := BricksTouching(bricks, box, 0);
    if Overlaps(paddle.box, box) then
      var objs := [PaddleObj(paddle.box)] + touching;
      ReportsCons(objs[0], touching);
      assert forall i :: 1 <= i < |objs| ==> objs[i] == touching[i - 1];
      objs
    else touching
  }

  // ---------------------------------------------------------------------
  // Hitting bricks

  /** Hits the bricks with the given indices one after another; since no index
      repeats, this is the same as hitting each of them once. */
  function ApplyHits(bricks: seq<Brick>, ids: seq<nat>): (r: seq<Brick>)
    requires Ascending(ids)
    requires forall j :: j in ids ==> j < |bricks| && Hittable(bricks[j])
    ensures |r| == |bricks|
    ensures forall j :: 0 <= j < |bricks| ==> r[j] == if j in ids then Hit(bricks[j]) else bricks[j]
    decreases |ids|
  {
    if |ids| == 0 then bricks
    else
      var first := ids[0];
      assert first in ids;
      var hit := bricks[first := Hit(bricks[first])];
      var rest := ids[1..];
      assert forall k :: 0 <= k < |rest| ==> rest[k] != first && rest[k] == ids[k + 1];
      assert forall j :: j in rest ==> j in ids && j != first;
      var r := ApplyHits(hit, rest);
      assert forall j :: j in ids <==> j == first || j in rest;
      r
  }

  // ---------------------------------------------------------------------
  // Moving the balls

  /** The bricks a ball hits are exactly the live bricks overlapping it, each
      once and each able to take the hit. */
  lemma CollideHits(b: Ball, paddle: Paddle, bricks: seq<Brick>)
    requires AllValid(bricks)
    ensures var c := Collide(b, Overlapping(paddle, bricks, b.box));
      && Ascending(c.hits)
      && (forall j :: j in c.hits <==> Touches(bricks, b.box, j))
      && (forall j :: j in c.hits ==> j < |bricks| && Hittable(bricks[j]))
  {
  }

  /** A ball reports a brick hit exactly when some live brick overlaps it. */
  lemma CollideHitBrick(b: Ball, paddle: Paddle, bricks: seq<Brick>)
    ensures Collide(b, Overlapping(paddle, bricks, b.box)).hitBrick <==>
      exists j :: 0 <= j < |bricks| && Touches(bricks, b.box, j)
  {
    var objs := Overlapping(paddle, bricks, b.box);
    if HasBrick(objs) {
      var i :| 0 <= i < |objs| && objs[i].BrickObj?;
      assert Reports(objs, objs[i].id);
    }
    if j :| 0 <= j < |bricks| && Touches(bricks, b.box, j) {
      assert Reports(objs, j);
    }
  }

  /** The bricks after a step are the same bricks, worn down: same boxes, no
      more hits left, and none brought back onto the canvas. */
  predicate Worn(before: seq<Brick>, after: seq<Brick>)
  {
    && |after| == |before|
    && forall j :: 0 <= j < |before| ==>
         after[j].box == before[j].box && after[j].hits <= before[j].hits
         && (after[j].onCanvas ==> before[j].onCanvas)
  }

  /** Hitting exactly the live bricks a box overlaps, each once, keeps every
      brick valid and wears down exactly those bricks. */
  lemma HitsWear(bricks: seq<Brick>, box: Rect, r: seq<Brick>)
    requires AllValid(bricks) && |r| == |bricks|
    requires forall j :: 0 <= j < |bricks| ==> r[j] == if Touches(bricks, box, j) then Hit(bricks[j]) else bricks[j]
    ensures AllValid(r) && Worn(bricks, r)
    ensures forall j :: 0 <= j < |bricks| ==>
      if Touches(bricks, box, j) then r[j].hits < bricks[j].hits else r[j] == bricks[j]
  {
  }

  /** The ball after its flight and the contact with whatever overlaps its
      new position. */
  function Bounce(b: Ball, paddle: Paddle, bricks: seq<Brick>, width: real): (r: Ball)
    requires b.speed.Some?
    ensures r.box == Update(b, width).box && r.speed == b.speed
    ensures UnitDir(b) ==> UnitDir(r)
  {
    var moved := Update(b, width);
    Collide(moved, Overlapping(paddle, bricks, moved.box)).ball
  }

  /** The wall after ball `b`'s flight and contact: exactly the live bricks
      its new box overlaps have taken one hit each. */
  function WallAfter(b: Ball, paddle: Paddle, bricks: seq<Brick>, width: real): (r: seq<Brick>)
    requires b.speed.Some? && AllValid(bricks)
    ensures |r| == |bricks| && AllValid(r)
    ensures forall j :: 0 <= j < |bricks| ==>
      r[j] == if Touches(bricks, Update(b, width).box, j) then Hit(bricks[j]) else bricks[j]
    ensures Worn(bricks, r)
    ensures forall j :: 0 <= j < |bricks| ==>
      if Touches(bricks, Update(b, width).box, j) then r[j].hits < bricks[j].hits else r[j] == bricks[j]
  {
    var moved := Update(b, width);
    var c := Collide(moved, Overlapping(paddle, bricks, moved.box));
    CollideHits(moved, paddle, bricks);
    var r := ApplyHits(bricks, c.hits);
    HitsWear(bricks, moved.box, r);
    r
  }

  /** One ball's share of a tick: fly, resolve the contact with whatever
      overlaps its new position (hitting exactly the live bricks there, each
      once), remember where it was if it hit a brick, and drop it if it
      reached the bottom. */
  method StepBall(b: Ball, paddle: Paddle, bricks: seq<Brick>, width: real)
    returns (ball: Option<Ball>, after: seq<Brick>, hitAt: Option<Rect>)
    requires b.speed.Some? && AllValid(bricks)
    ensures ball.None? <==> Update(b, width).box.bottom >= FieldHeight
    ensures ball.Some? ==> ball.value.box == Update(b, width).box && ball.value.speed == b.speed
    ensures ball.Some? ==> ball.value == Bounce(b, paddle, bricks, width)
    ensures after == WallAfter(b, paddle, bricks, width)
    ensures UnitDir(b) && ball.Some? ==> UnitDir(ball.value)
    ensures hitAt.Some? <==> exists j :: 0 <= j < |bricks| && Touches(bricks, Update(b, width).box, j)
    ensures hitAt.Some? ==> hitAt.value == Update(b, width).box
    ensures |after| == |bricks|
    ensures forall j :: 0 <= j < |bricks| ==>
      after[j] == if Touches(bricks, Update(b, width).box, j) then Hit(bricks[j]) else bricks[j]
    ensures Worn(bricks, after) && AllValid(after)
    ensures hitAt.Some? ==> exists j :: 0 <= j < |bricks| && after[j].hits < bricks[j].hits
    ensures hitAt.None? ==> after == bricks
  {
    var moved := Update(b, width);
    var c := Collide(moved, Overlapping(paddle, bricks, moved.box));
    CollideHits(moved, paddle, bricks);
    CollideHitBrick(moved, paddle, bricks);
    after := WallAfter(b, paddle, bricks, width);
    ball := if c.ball.box.bottom >= FieldHeight then None else Some(c.ball);
    hitAt := if c.hitBrick then Some(c.ball.box) else None;
  }

  function Boxes(balls: seq<Ball>): (r: seq<Rect>)
    ensures |r| == |balls|
  {
    seq(|balls|, k requires 0 <= k < |balls| => balls[k].box)
  }

  lemma BoxesAppend(a: seq<Ball>, b: seq<Ball>)
    ensures Boxes(a + b) == Boxes(a) + Boxes(b)
  {
  }

  /** Where the balls that do not leave through the bottom are after flying,
      in order. */
  function Survivors(balls: seq<Ball>, width: real): seq<Rect>
    requires AllMoving(balls)
  {
    if |balls| == 0 then []
    else
      var box := Update(balls[|balls| - 1], width).box;
      Survivors(balls[..|balls| - 1], width) + (if box.bottom < FieldHeight then [box] else [])
  }

  /** Every ball is above the bottom edge and still has a speed. */
  predicate InPlay(balls: seq<Ball>)
  {
    forall k :: 0 <= k < |balls| ==> balls[k].box.bottom < FieldHeight && balls[k].speed.Some?
  }

  /** Every ball flies at the speed balls are created with. */
  predicate AtInitialSpeed(balls: seq<Ball>)
  {
    forall k :: 0 <= k < |balls| ==> balls[k].speed == Some(InitialSpeed)
  }

  /** The balls kept so far, followed by this ball if it is kept. */
  function Keep(kept: seq<Ball>, ball: Option<Ball>): seq<Ball>
  {
    kept + if ball.Some? then [ball.value] else []
  }

  /** Keeping or dropping ball `i` extends the survivors of the first `i`
      balls to the survivors of the first `i + 1`. */
  lemma KeepStep(balls: seq<Ball>, i: nat, kept: seq<Ball>, ball: Option<Ball>, width: real)
    requires i < |balls| && AllMoving(balls)
    requires Boxes(kept) == Survivors(balls[..i], width) && InPlay(kept)
    requires ball.None? <==> Update(balls[i], width).box.bottom >= FieldHeight
    requires ball.Some? ==> ball.value.box == Update(balls[i], width).box && ball.value.speed == balls[i].speed
    ensures Boxes(Keep(kept, ball)) == Survivors(balls[..i + 1], width)
    ensures InPlay(Keep(kept, ball))
  {
    assert balls[..i + 1][..i] == balls[..i];
    var more := if ball.Some? then [ball.value] else [];
    BoxesAppend(kept, more);
    assert forall k :: 0 <= k < |kept| ==> (kept + more)[k] == kept[k];
  }

  /** Some ball's new box overlaps brick `j` while that brick is on the
      canvas in `bricks`. */
  predicate Struck(balls: seq<Ball>, bricks: seq<Brick>, width: real, j: nat)
    requires AllMoving(balls)
  {
    exists k :: 0 <= k < |balls| && Touches(bricks, Update(balls[k], width).box, j)
  }

  /** `after` is `bricks` with every struck brick worn down by at least one
      hit and every other brick left exactly as it was. */
  predicate WornBy(balls: seq<Ball>, bricks: seq<Brick>, width: real, after: seq<Brick>)
    requires AllMoving(balls)
  {
    && |after| == |bricks|
    && forall j :: 0 <= j < |bricks| ==>
         if Struck(balls, bricks, width, j) then after[j].hits < bricks[j].hits else after[j] == bricks[j]
  }

  /** One more ball, the last of `balls`: a brick it touches in the current
      wall is either one an earlier ball already struck, or one still
      untouched, which it now wears down. */
  lemma WornByLast(balls: seq<Ball>, bricks: seq<Brick>, after: seq<Brick>, next: seq<Brick>, width: real)
    requires |balls| > 0 && AllMoving(balls)
    requires WornBy(balls[..|balls| - 1], bricks, width, after) && |next| == |after|
    requires forall j :: 0 <= j < |after| ==> next[j].hits <= after[j].hits
    requires forall j :: 0 <= j < |after| ==>
      if Touches(after, Update(balls[|balls| - 1], width).box, j) then next[j].hits < after[j].hits else next[j] == after[j]
    ensures WornBy(balls, bricks, width, next)
  {
    var n := |balls| - 1;
    var front := balls[..n];
    var box := Update(balls[n], width).box;
    assert forall k :: 0 <= k < n ==> front[k] == balls[k];
    forall j | 0 <= j < |bricks|
      ensures if Struck(balls, bricks, width, j) then next[j].hits < bricks[j].hits else next[j] == bricks[j]
    {
      if Struck(front, bricks, width, j) {
        var k :| 0 <= k < n && Touches(bricks, Update(front[k], width).box, j);
        assert Touches(bricks, Update(balls[k], width).box, j);
      } else if Touches(bricks, box, j) {
        assert Touches(bricks, Update(balls[n], width).box, j);
      } else {
        assert !Struck(balls, bricks, width, j) by {
          forall k | 0 <= k < |balls| ensures !Touches(bricks, Update(balls[k], width).box, j) {
            if k < n {
              assert front[k] == balls[k];
            }
          }
        }
      }
    }
  }

  /** What the ball loop leaves behind: the balls kept, the wall, and the
      boxes of the balls that hit a brick, in ball order. */
  datatype Flight = Flight(kept: seq<Ball>, bricks: seq<Brick>, hits: seq<Rect>)

  /** One ball's turn: it is kept, with the direction its contact gave it,
      iff its new box is above the bottom edge; the wall takes its hits; and
      its new box is recorded iff it overlaps a live brick. */
  function TurnStep(prev: Flight, b: Ball, paddle: Paddle, width: real): (r: Flight)
    requires b.speed.Some? && AllValid(prev.bricks)
    ensures |r.kept| <= |prev.kept| + 1 && |r.hits| <= |prev.hits| + 1
    ensures |r.bricks| == |prev.bricks| && AllValid(r.bricks)
  {
    var box := Update(b, width).box;
    Flight(
      prev.kept + (if box.bottom < FieldHeight then [Bounce(b, paddle, prev.bricks, width)] else []),
      WallAfter(b, paddle, prev.bricks, width),
      prev.hits + (if StrikesWall(prev.bricks, box) then [box] else []))
  }

  /** The ball loop as a definition: the balls take their turns in order,
      each seeing the wall as the balls before it left it. */
  function Turns(balls: seq<Ball>, paddle: Paddle, bricks: seq<Brick>, width: real): (r: Flight)
    requires AllMoving(balls) && AllValid(bricks)
    ensures |r.kept| <= |balls| && |r.hits| <= |balls|
    ensures |r.bricks| == |bricks| && AllValid(r.bricks)
    decreases |balls|
  {
    if |balls| == 0 then Flight([], bricks, [])
    else TurnStep(Turns(balls[..|balls| - 1], paddle, bricks, width), balls[|balls| - 1], paddle, width)
  }

  /** Keeping a ball with a unit direction keeps all directions unit. */
  lemma KeepUnitDir(kept: seq<Ball>, ball: Option<Ball>)
    requires AllUnitDir(kept) && (ball.Some? ==> UnitDir(ball.value))
    ensures AllUnitDir(Keep(kept, ball))
  {
  }

  /** Keeping a ball at the initial speed keeps all speeds initial. */
  lemma KeepSpeed(kept: seq<Ball>, ball: Option<Ball>)
    requires AtInitialSpeed(kept) && (ball.Some? ==> ball.value.speed == Some(InitialSpeed))
    ensures AtInitialSpeed(Keep(kept, ball))
  {
  }

  /** The last ball's turn extends the survivors of the other balls to the
      survivors of all of them. */
  lemma KeptStep(balls: seq<Ball>, prev: Flight, paddle: Paddle, width: real)
    requires |balls| > 0 && AllMoving(balls) && AllValid(prev.bricks)
    requires InPlay(prev.kept) && Boxes(prev.kept) == Survivors(balls[..|balls| - 1], width)
    ensures var r := TurnStep(prev, balls[|balls| - 1], paddle, width);
      InPlay(r.kept) && Boxes(r.kept) == Survivors(balls, width)
  {
    var n := |balls| - 1;
    var b := balls[n];
    var opt := if Update(b, width).box.bottom < FieldHeight then Some(Bounce(b, paddle, prev.bricks, width)) else None;
    KeepStep(balls, n, prev.kept, opt, width);
    assert balls[..n + 1] == balls;
  }

  /** One more turn keeps every kept ball's direction unit. */
  lemma UnitDirStep(prev: Flight, b: Ball, paddle: Paddle, width: real)
    requires b.speed.Some? && AllValid(prev.bricks)
    requires AllUnitDir(prev.kept) && UnitDir(b)
    ensures AllUnitDir(TurnStep(prev, b, paddle, width).kept)
  {
    KeepUnitDir(prev.kept, if Update(b, width).box.bottom < FieldHeight
                           then Some(Bounce(b, paddle, prev.bricks, width)) else None);
  }

  /** One more turn keeps every kept ball at the initial speed. */
  lemma SpeedStep(prev: Flight, b: Ball, paddle: Paddle, width: real)
    requires b.speed.Some? && AllValid(prev.bricks)
    requires AtInitialSpeed(prev.kept) && b.speed == Some(InitialSpeed)
    ensures AtInitialSpeed(TurnStep(prev, b, paddle, width).kept)
  {
    KeepSpeed(prev.kept, if Update(b, width).box.bottom < FieldHeight
                         then Some(Bounce(b, paddle, prev.bricks, width)) else None);
  }

  /** The last ball's turn wears down exactly the bricks it strikes, on top
      of what the other balls did. */
  lemma WearStep(balls: seq<Ball>, prev: Flight, paddle: Paddle, bricks: seq<Brick>, width: real)
    requires |balls| > 0 && AllMoving(balls) && AllValid(prev.bricks)
    requires Worn(bricks, prev.bricks) && WornBy(balls[..|balls| - 1], bricks, width, prev.bricks)
    ensures var r := TurnStep(prev, balls[|balls| - 1], paddle, width);
      Worn(bricks, r.bricks) && WornBy(balls, bricks, width, r.bricks)
  {
    var n := |balls| - 1;
    var next := WallAfter(balls[n], paddle, prev.bricks, width);
    assert TurnStep(prev, balls[n], paddle, width).bricks == next;
    assert Worn(bricks, next);
    WornByLast(balls, bricks, prev.bricks, next, width);
  }

  /** The balls the loop keeps are the survivors, in order, above the bottom
      edge. */
  lemma {:induction false} TurnsKeep(balls: seq<Ball>, paddle: Paddle, bricks: seq<Brick>, width: real)
    requires AllMoving(balls) && AllValid(bricks)
    ensures var r := Turns(balls, paddle, bricks, width);
      InPlay(r.kept) && Boxes(r.kept) == Survivors(balls, width)
    decreases |balls|
  {
    if |balls| > 0 {
      var n := |balls| - 1;
      var prev := Turns(balls[..n], paddle, bricks, width);
      TurnsKeep(balls[..n], paddle, bricks, width);
      KeptStep(balls, prev, paddle, width);
      assert Turns(balls, paddle, bricks, width) == TurnStep(prev, balls[n], paddle, width);
    }
  }

  /** Balls with unit directions keep them through the loop. */
  lemma {:induction false} TurnsUnitDir(balls: seq<Ball>, paddle: Paddle, bricks: seq<Brick>, width: real)
    requires AllMoving(balls) && AllValid(bricks) && AllUnitDir(balls)
    ensures AllUnitDir(Turns(balls, paddle, bricks, width).kept)
    decreases |balls|
  {
    if |balls| > 0 {
      var n := |balls| - 1;
      var prev := Turns(balls[..n], paddle, bricks, width);
      assert AllUnitDir(balls[..n]);
      TurnsUnitDir(balls[..n], paddle, bricks, width);
      UnitDirStep(prev, balls[n], paddle, width);
      assert Turns(balls, paddle, bricks, width) == TurnStep(prev, balls[n], paddle, width);
    }
  }

  /** Balls at the initial speed keep it through the loop. */
  lemma {:induction false} TurnsSpeed(balls: seq<Ball>, paddle: Paddle, bricks: seq<Brick>, width: real)
    requires AllMoving(balls) && AllValid(bricks) && AtInitialSpeed(balls)
    ensures AtInitialSpeed(Turns(balls, paddle, bricks, width).kept)
    decreases |balls|
  {
    if |balls| > 0 {
      var n := |balls| - 1;
      var prev := Turns(balls[..n], paddle, bricks, width);
      assert AtInitialSpeed(balls[..n]);
      TurnsSpeed(balls[..n], paddle, bricks, width);
      SpeedStep(prev, balls[n], paddle, width);
      assert Turns(balls, paddle, bricks, width) == TurnStep(prev, balls[n], paddle, width);
    }
  }

  /** Exactly the bricks some ball struck are worn down; the others are
      left as they were. */
  lemma {:induction false} TurnsWear(balls: seq<Ball>, paddle: Paddle, bricks: seq<Brick>, width: real)
    requires AllMoving(balls) && AllValid(bricks)
    ensures var r := Turns(balls, paddle, bricks, width);
      Worn(bricks, r.bricks) && WornBy(balls, bricks, width, r.bricks)
    decreases |balls|
  {
    if |balls| > 0 {
      var n := |balls| - 1;
      var prev := Turns(balls[..n], paddle, bricks, width);
      TurnsWear(balls[..n], paddle, bricks, width);
      WearStep(balls, prev, paddle, bricks, width);
      assert Turns(balls, paddle, bricks, width) == TurnStep(prev, balls[n], paddle, width);
    }
  }

  /** A ball that strikes the wall wears some brick down; one that does not
      leaves the wall as it was. */
  lemma StrikeChanges(b: Ball, paddle: Paddle, bricks: seq<Brick>, width: real)
    requires b.speed.Some? && AllValid(bricks)
    ensures StrikesWall(bricks, Update(b, width).box) ==>
      exists j :: 0 <= j < |bricks| && WallAfter(b, paddle, bricks, width)[j].hits < bricks[j].hits
    ensures !StrikesWall(bricks, Update(b, width).box) ==> WallAfter(b, paddle, bricks, width) == bricks
  {
    var next := WallAfter(b, paddle, bricks, width);
    if !StrikesWall(bricks, Update(b, width).box) {
      assert forall j :: 0 <= j < |bricks| ==> next[j] == bricks[j];
    }
  }

  /** One turn keeps "a brick hit is recorded iff the wall changed" for a
      wall that has only worn down since the start. */
  lemma HitsStep(prev: Flight, b: Ball, paddle: Paddle, bricks: seq<Brick>, width: real)
    requires b.speed.Some? && AllValid(prev.bricks)
    requires Worn(bricks, prev.bricks) && (|prev.hits| == 0 <==> prev.bricks == bricks)
    ensures var r := TurnStep(prev, b, paddle, width);
      |r.hits| == 0 <==> r.bricks == bricks
  {
    var r := TurnStep(prev, b, paddle, width);
    StrikeChanges(b, paddle, prev.bricks, width);
    if StrikesWall(prev.bricks, Update(b, width).box) {
      var j :| 0 <= j < |prev.bricks| && r.bricks[j].hits < prev.bricks[j].hits;
      assert r.bricks[j] != bricks[j];
    }
  }

  /** A brick hit is recorded iff the wall changed. */
  lemma {:induction false} TurnsHits(balls: seq<Ball>, paddle: Paddle, bricks: seq<Brick>, width: real)
    requires AllMoving(balls) && AllValid(bricks)
    ensures var r := Turns(balls, paddle, bricks, width);
      |r.hits| == 0 <==> r.bricks == bricks
    decreases |balls|
  {
    if |balls| > 0 {
      var n := |balls| - 1;
      var prev := Turns(balls[..n], paddle, bricks, width);
      TurnsHits(balls[..n], paddle, bricks, width);
      TurnsWear(balls[..n], paddle, bricks, width);
      HitsStep(prev, balls[n], paddle, bricks, width);
      assert Turns(balls, paddle, bricks, width) == TurnStep(prev, balls[n], paddle, width);
    }
  }

  /** One more turn keeps the first ball kept; a ball that stays above the
      bottom edge on the first turn becomes it. */
  lemma FirstStep(prev: Flight, b: Ball, paddle: Paddle, width: real)
    requires b.speed.Some? && AllValid(prev.bricks)
    ensures var r := TurnStep(prev, b, paddle, width);
      && (|prev.kept| > 0 ==> |r.kept| > 0 && r.kept[0] == prev.kept[0])
      && (|prev.kept| == 0 && Update(b, width).box.bottom < FieldHeight ==>
            |r.kept| > 0 && r.kept[0] == Bounce(b, paddle, prev.bricks, width))
  {
  }

  /** The turns of the first `i + 1` balls are those of the first `i`, then
      ball `i`'s. */
  lemma TurnsPrefix(balls: seq<Ball>, i: nat, paddle: Paddle, bricks: seq<Brick>, width: real)
    requires i < |balls| && AllMoving(balls) && AllValid(bricks)
    ensures Turns(balls[..i + 1], paddle, bricks, width)
      == TurnStep(Turns(balls[..i], paddle, bricks, width), balls[i], paddle, width)
  {
    var front := balls[..i + 1];
    assert front[..i] == balls[..i] && front[i] == balls[i];
  }

  /** Later turns only add balls behind those already kept. */
  lemma {:induction false} TurnsGrow(balls: seq<Ball>, m: nat, paddle: Paddle, bricks: seq<Brick>, width: real)
    requires m <= |balls| && AllMoving(balls) && AllValid(bricks)
    ensures Turns(balls[..m], paddle, bricks, width).kept <= Turns(balls, paddle, bricks, width).kept
    decreases |balls|
  {
    if m == |balls| {
      assert balls[..m] == balls;
    } else {
      var n := |balls| - 1;
      assert balls[..n][..m] == balls[..m];
      TurnsGrow(balls[..n], m, paddle, bricks, width);
      TurnsPrefix(balls, n, paddle, bricks, width);
      assert balls[..n + 1] == balls;
    }
  }

  /** A first ball that stays above the bottom edge is the first ball kept,
      as its turn against the untouched wall left it. */
  lemma TurnsFirst(balls: seq<Ball>, paddle: Paddle, bricks: seq<Brick>, width: real)
    requires |balls| > 0 && AllMoving(balls) && AllValid(bricks)
    requires Update(balls[0], width).box.bottom < FieldHeight
    ensures var r := Turns(balls, paddle, bricks, width);
      |r.kept| > 0 && r.kept[0] == Bounce(balls[0], paddle, bricks, width)
  {
    TurnsPrefix(balls, 0, paddle, bricks, width);
    assert Turns(balls[..0], paddle, bricks, width) == Flight([], bricks, []);
    FirstStep(Flight([], bricks, []), balls[0], paddle, width);
    TurnsGrow(balls, 1, paddle, bricks, width);
  }

  /** What `StepBall` returns for ball `i`, appended to the loop's state
      after the first `i` balls, is the state after the first `i + 1`. */
  lemma TurnsNext(balls: seq<Ball>, i: nat, paddle: Paddle, bricks: seq<Brick>, width: real,
                  f: Flight, ball: Option<Ball>, next: seq<Brick>, at: Option<Rect>)
    requires i < |balls| && AllMoving(balls) && AllValid(bricks)
    requires f == Turns(balls[..i], paddle, bricks, width)
    requires ball.None? <==> Update(balls[i], width).box.bottom >= FieldHeight
    requires ball.Some? ==> ball.value == Bounce(balls[i], paddle, f.bricks, width)
    requires next == WallAfter(balls[i], paddle, f.bricks, width)
    requires at.Some? <==> StrikesWall(f.bricks, Update(balls[i], width).box)
    requires at.Some? ==> at.value == Update(balls[i], width).box
    ensures Flight(Keep(f.kept, ball), next, f.hits + (if at.Some? then [at.value] else []))
      == Turns(balls[..i + 1], paddle, bricks, width)
  {
    var r := TurnStep(f, balls[i], paddle, width);
    TurnsPrefix(balls, i, paddle, bricks, width);
    if ball.Some? {
      assert r.kept == f.kept + [ball.value];
    } else {
      assert r.kept == f.kept;
    }
    if at.Some? {
      assert r.hits == f.hits + [at.value];
    } else {
      assert r.hits == f.hits;
    }
  }

  /** Ball `i`'s turn within `MoveBalls`: the loop's state after the first
      `i` balls becomes the state after the first `i + 1`. */
  method MoveOne(balls: seq<Ball>, i: nat, paddle: Paddle, bricks: seq<Brick>, width: real,
                 kept: seq<Ball>, after: seq<Brick>, hitAt: seq<Rect>)
    returns (kept': seq<Ball>, after': seq<Brick>, hitAt': seq<Rect>)
    requires i < |balls| && AllMoving(balls) && AllValid(bricks)
    requires Flight(kept, after, hitAt) == Turns(balls[..i], paddle, bricks, width)
    ensures Flight(kept', after', hitAt') == Turns(balls[..i + 1], paddle, bricks, width)
  {
    var ball, next, at := StepBall(balls[i], paddle, after, width);
    TurnsNext(balls, i, paddle, bricks, width, Flight(kept, after, hitAt), ball, next, at);
    kept' := Keep(kept, ball);
    after' := next;
    hitAt' := hitAt + (if at.Some? then [at.value] else []);
  }

  /** All balls in order, each seeing the bricks as the previous ones left
      them: the result is `Turns`. So the balls kept are exactly those whose
      new position is above the bottom edge, in their original order; exactly
      the bricks some ball's new box overlapped are worn down; and a brick
      hit is recorded iff the wall changed. */
  method MoveBalls(balls: seq<Ball>, paddle: Paddle, bricks: seq<Brick>, width: real)
    returns (kept: seq<Ball>, after: seq<Brick>, hitAt: seq<Rect>)
    requires AllMoving(balls) && AllValid(bricks)
    ensures Flight(kept, after, hitAt) == Turns(balls, paddle, bricks, width)
    ensures |kept| <= |balls| && |hitAt| <= |balls|
    ensures InPlay(kept)
    ensures Boxes(kept) == Survivors(balls, width)
    ensures AllUnitDir(balls) ==> AllUnitDir(kept)
    ensures AtInitialSpeed(balls) ==> AtInitialSpeed(kept)
    ensures Worn(bricks, after) && AllValid(after)
    ensures WornBy(balls, bricks, width, after)
    ensures |hitAt| == 0 <==> after == bricks
  {
    kept, after, hitAt := [], bricks, [];
    var i := 0;
    while i < |balls|
      invariant 0 <= i <= |balls|
      invariant Flight(kept, after, hitAt) == Turns(balls[..i], paddle, bricks, width)
    {
      kept, after, hitAt := MoveOne(balls, i, paddle, bricks, width, kept, after, hitAt);
      i := i + 1;
    }
    assert balls[..i] == balls;
    TurnsKeep(balls, paddle, bricks, width);
    if AllUnitDir(balls) {
      TurnsUnitDir(balls, paddle, bricks, width);
    }
    if AtInitialSpeed(balls) {
      TurnsSpeed(balls, paddle, bricks, width);
    }
    TurnsWear(balls, paddle, bricks, width);
    TurnsHits(balls, paddle, bricks, width);
  }

  // ---------------------------------------------------------------------
  // Extra balls

  /** An extra ball spawned at the centre of a brick-hitting ball's box,
      heading down and to the side the coin picked. */
  function SpawnedBall(at: Rect, heads: bool): (b: Ball)
    ensures UnitDir(b) && b.dy == 1 && b.speed == Some(InitialSpeed)
    ensures b.dx == (if heads then 1 else -1)
    ensures CenterX(b.box) == CenterX(at) && CenterY(b.box) == CenterY(at)
  {
    var ball := NewBall(CenterX(at), CenterY(at));
    ball.(dx := if heads then 1 else -1, dy := 1)
  }

  function Min(a: int, b: int): int
  {
    if a <= b then a else b
  }

  /** One extra ball per recorded brick hit, for as long as fewer than
      `BallCap` balls are in play. `coin(n)` is the n-th random side choice. */
  function Spawn(balls: seq<Ball>, hitAt: seq<Rect>, coin: nat -> bool, draw: nat): (r: seq<Ball>)
    ensures |r| == if |balls| >= BallCap then |balls| else Min(BallCap, |balls| + |hitAt|)
    ensures r[..|balls|] == balls
    ensures forall k :: |balls| <= k < |r| ==>
      r[k] == SpawnedBall(hitAt[k - |balls|], coin(draw + (k - |balls|)))
    decreases |hitAt|
  {
    if |hitAt| == 0 then balls
    else if |balls| < BallCap then
      var more := balls + [SpawnedBall(hitAt[0], coin(draw))];
      var r := Spawn(more, hitAt[1..], coin, draw + 1);
      assert r[..|balls|] == r[..|more|][..|balls|];
      r
    else
      Spawn(balls, hitAt[1..], coin, draw)
  }

  /** Winning switches every ball's speed off. */
  function Freeze(balls: seq<Ball>): (r: seq<Ball>)
    ensures |r| == |balls|
    ensures forall k :: 0 <= k < |r| ==> r[k] == balls[k].(speed := None)
  {
    seq(|balls|, k requires 0 <= k < |balls| => balls[k].(speed := None))
  }

  // ---------------------------------------------------------------------
  // The tick

  /** What a tick needs: every ball still has a speed and every brick is in
      a consistent state. */
  predicate Playable(g: GameState)
  {
    AllMoving(g.balls) && AllValid(g.bricks)
  }

  /** The invariant of a running game. */
  predicate Inv(g: GameState)
  {
    && Playable(g)
    && AllUnitDir(g.balls)
    && AtInitialSpeed(g.balls)
    && |g.balls| <= BallCap
    && InsideX(g.paddle.box, g.width)
    && -MaxSpeed <= g.paddle.velocity <= MaxSpeed
  }

  /** The ball the paddle carries, if it carries one. */
  function Carried(g: GameState): Option<Ball>
  {
    if g.carried && |g.balls| > 0 then Some(g.balls[0]) else None
  }

  /** The balls after the paddle's physics step: the ball resting on the
      paddle, if any, rides along with it; the others stay where they are. */
  function Launched(g: GameState, leftPressed: bool, rightPressed: bool): (balls: seq<Ball>)
    ensures |balls| == |g.balls|
    ensures forall k :: 0 <= k < |balls| ==> balls[k] == g.balls[k].(box := balls[k].box)
    ensures forall k :: 0 < k < |balls| ==> balls[k] == g.balls[k]
    ensures var v := UpdatePhysics(g.paddle, Carried(g), leftPressed, rightPressed, g.width).paddle.velocity;
      && (g.carried && |balls| > 0 && v != 0.0 ==> balls[0].box == Translate(g.balls[0].box, v, 0.0))
      && (!g.carried || v == 0.0 ==> balls == g.balls)
    ensures AllMoving(g.balls) ==> AllMoving(balls)
    ensures AllUnitDir(g.balls) ==> AllUnitDir(balls)
    ensures AtInitialSpeed(g.balls) ==> AtInitialSpeed(balls)
  {
    var step := UpdatePhysics(g.paddle, Carried(g), leftPressed, rightPressed, g.width);
    if Carried(g).Some? then g.balls[0 := step.carried.value] else g.balls
  }

  /** A first ball that stays in play is still the first ball once the extra
      balls are added behind the survivors. */
  lemma FirstKept(balls: seq<Ball>, paddle: Paddle, bricks: seq<Brick>, width: real, coin: nat -> bool)
    requires |balls| > 0 && AllMoving(balls) && AllValid(bricks)
    requires Update(balls[0], width).box.bottom < FieldHeight
    ensures var f := Turns(balls, paddle, bricks, width);
      var r := Spawn(f.kept, f.hits, coin, 0);
      |r| > 0 && r[0] == Bounce(balls[0], paddle, bricks, width)
  {
    var f := Turns(balls, paddle, bricks, width);
    TurnsFirst(balls, paddle, bricks, width);
    var r := Spawn(f.kept, f.hits, coin, 0);
    assert r[..|f.kept|][0] == f.kept[0];
  }

  /** Whether the paddle still carries a ball after the tick: it carried one
      before, and that ball, the first, stays above the bottom edge. Once the
      carried ball is lost the paddle's reference points at a deleted item,
      so no ball rides along any more. */
  predicate KeepsCarried(g: GameState, leftPressed: bool, rightPressed: bool)
    requires Playable(g)
  {
    Carried(g).Some? && Update(Launched(g, leftPressed, rightPressed)[0], g.width).box.bottom < FieldHeight
  }

  /** What the moving part of a tick does to the paddle, the balls and the
      bricks: the paddle takes its physics step; the first balls are the
      survivors of the flight at their new positions, in order; the rest are
      extra balls heading down, at most one per ball, spawned only when a
      brick was hit and only up to the cap; and exactly the bricks some ball's
      new box overlapped are worn down. */
  predicate Motion(g: GameState, leftPressed: bool, rightPressed: bool,
                   paddle: Paddle, balls: seq<Ball>, bricks: seq<Brick>)
  {
    var moving := Launched(g, leftPressed, rightPressed);
    && paddle == UpdatePhysics(g.paddle, Carried(g), leftPressed, rightPressed, g.width).paddle
    && AllMoving(moving)
    && var n := |Survivors(moving, g.width)|;
       && n <= |balls| <= n + |moving|
       && Boxes(balls[..n]) == Survivors(moving, g.width)
       && (forall k :: n <= k < |balls| ==> UnitDir(balls[k]) && balls[k].dy == 1)
       && (bricks == g.bricks ==> |balls| == n)
       && (bricks != g.bricks && n < BallCap ==> n < |balls|)
       && (n < |balls| ==> |balls| <= BallCap)
       && WornBy(moving, g.bricks, g.width, bricks)
  }

  /** The balls after spawning: the kept balls first, then at most one extra
      ball per recorded hit, none without a hit, and none beyond the cap. */
  lemma SpawnShape(kept: seq<Ball>, hitAt: seq<Rect>, coin: nat -> bool)
    ensures var r := Spawn(kept, hitAt, coin, 0);
      && |kept| <= |r| <= |kept| + |hitAt|
      && r[..|kept|] == kept
      && (forall k :: |kept| <= k < |r| ==> UnitDir(r[k]) && r[k].dy == 1 && r[k].speed == Some(InitialSpeed))
      && (|hitAt| == 0 ==> |r| == |kept|)
      && (|hitAt| > 0 && |kept| < BallCap ==> |kept| < |r|)
      && (|kept| < |r| ==> |r| <= BallCap)
      && (|kept| <= BallCap ==> |r| <= BallCap)
      && (InPlay(kept) ==> AllMoving(r))
      && (AllUnitDir(kept) ==> AllUnitDir(r))
      && (AtInitialSpeed(kept) ==> AtInitialSpeed(r))
  {
  }

  /** The balls kept by `MoveBalls` followed by the spawned ones, and the
      bricks it wore down, are what `Motion` describes. */
  lemma MotionOfTick(g: GameState, leftPressed: bool, rightPressed: bool,
                     kept: seq<Ball>, bricks: seq<Brick>, hitAt: seq<Rect>, balls: seq<Ball>)
    requires AllMoving(Launched(g, leftPressed, rightPressed))
    requires Boxes(kept) == Survivors(Launched(g, leftPressed, rightPressed), g.width)
    requires WornBy(Launched(g, leftPressed, rightPressed), g.bricks, g.width, bricks)
    requires |hitAt| == 0 <==> bricks == g.bricks
    requires |hitAt| <= |g.balls|
    requires |kept| <= |balls| <= |kept| + |hitAt| && balls[..|kept|] == kept
    requires forall k :: |kept| <= k < |balls| ==> UnitDir(balls[k]) && balls[k].dy == 1
    requires |hitAt| == 0 ==> |balls| == |kept|
    requires |hitAt| > 0 && |kept| < BallCap ==> |kept| < |balls|
    requires |kept| < |balls| ==> |balls| <= BallCap
    ensures Motion(g, leftPressed, rightPressed,
                   UpdatePhysics(g.paddle, Carried(g), leftPressed, rightPressed, g.width).paddle, balls, bricks)
  {
  }

  /** The moving part of a tick as a definition: the paddle's physics step,
      the balls' turns (`Turns`) against the wall the tick started with, then
      the extra balls for the recorded hits. The paddle keeps its ball only
      while that ball is in play. */
  function Moved(g: GameState, leftPressed: bool, rightPressed: bool, coin: nat -> bool): GameState
    requires Playable(g)
  {
    var paddle := UpdatePhysics(g.paddle, Carried(g), leftPressed, rightPressed, g.width).paddle;
    var f := Turns(Launched(g, leftPressed, rightPressed), paddle, g.bricks, g.width);
    var carried := KeepsCarried(g, leftPressed, rightPressed);
    GameState(g.lives, g.width, paddle, carried, Spawn(f.kept, f.hits, coin, 0), f.bricks)
  }

  /** While the paddle keeps its ball, that ball is still the first one, as
      its turn moved it from where the paddle's step put it. */
  lemma MovedCarried(g: GameState, leftPressed: bool, rightPressed: bool, coin: nat -> bool)
    requires Playable(g)
    ensures var st := Moved(g, leftPressed, rightPressed, coin);
      st.carried ==>
        && |st.balls| > 0
        && st.balls[0] == Bounce(Launched(g, leftPressed, rightPressed)[0], st.paddle, g.bricks, g.width)
  {
    if KeepsCarried(g, leftPressed, rightPressed) {
      var paddle := UpdatePhysics(g.paddle, Carried(g), leftPressed, rightPressed, g.width).paddle;
      FirstKept(Launched(g, leftPressed, rightPressed), paddle, g.bricks, g.width, coin);
    }
  }

  /** The moving part of a tick: the paddle's physics step (carrying the
      resting ball along), every ball's flight and collisions, the removal of
      the balls that left through the bottom, and the extra balls. Lives are
      not touched. The paddle still carries a ball iff it did and that ball
      is still in play. */
  method Advance(g: GameState, leftPressed: bool, rightPressed: bool, coin: nat -> bool) returns (st: GameState)
    requires Playable(g)
    ensures Playable(st) && Worn(g.bricks, st.bricks)
    ensures st.lives == g.lives && st.width == g.width
    ensures st.carried == KeepsCarried(g, leftPressed, rightPressed)
    ensures Motion(g, leftPressed, rightPressed, st.paddle, st.balls, st.bricks)
    ensures st == Moved(g, leftPressed, rightPressed, coin)
    ensures |g.balls| <= BallCap ==> |st.balls| <= BallCap
    ensures Inv(g) ==> Inv(st)
  {
    var step := UpdatePhysics(g.paddle, Carried(g), leftPressed, rightPressed, g.width);
    var balls := Launched(g, leftPressed, rightPressed);
    var kept, bricks, hitAt := MoveBalls(balls, step.paddle, g.bricks, g.width);
    var after := Spawn(kept, hitAt, coin, 0);
    st := GameState(g.lives, g.width, step.paddle, KeepsCarried(g, leftPressed, rightPressed), after, bricks);
    assert st == Moved(g, leftPressed, rightPressed, coin);
    SpawnShape(kept, hitAt, coin);
    MotionOfTick(g, leftPressed, rightPressed, kept, bricks, hitAt, after);
  }

  /** The end of a tick, in priority order: no bricks left is a win (every
      ball's speed is switched off); otherwise no balls left costs a life and
      is game over once lives drop below zero, a new round otherwise;
      otherwise the game goes on. */
  function Decide(st: GameState): (r: TickResult)
    ensures r.outcome == Win <==> LiveCount(st.bricks) == 0
    ensures r.outcome == Win ==> r.state == st.(balls := Freeze(st.balls))
    ensures (r.outcome == GameOver || r.outcome == Reset) <==> LiveCount(st.bricks) > 0 && |st.balls| == 0
    ensures (r.outcome == GameOver || r.outcome == Reset) ==> r.state == st.(lives := st.lives - 1)
    ensures r.outcome == GameOver <==> LiveCount(st.bricks) > 0 && |st.balls| == 0 && st.lives - 1 < 0
    ensures r.outcome == Continue ==> r.state == st
  {
    if LiveCount(st.bricks) == 0 then
      TickResult(st.(balls := Freeze(st.balls)), Win)
    else if |st.balls| == 0 then
      var lives := st.lives - 1;
      TickResult(st.(lives := lives), if lives < 0 then GameOver else Reset)
    else
      TickResult(st, Continue)
  }

  /** Losing the last ball with bricks left: from three lives the game goes to
      a new round with two, from zero lives it is over with -1. */
  lemma LastBallLost(st: GameState)
    requires LiveCount(st.bricks) > 0 && |st.balls| == 0
    ensures st.lives == 3 ==> Decide(st).outcome == Reset && Decide(st).state.lives == 2
    ensures st.lives == 0 ==> Decide(st).outcome == GameOver && Decide(st).state.lives == -1
  {
  }

  /** `Motion` speaks of positions and directions only: switching speeds
      off, as winning does, keeps it. */
  lemma MotionIgnoresSpeed(g: GameState, leftPressed: bool, rightPressed: bool,
                           paddle: Paddle, balls: seq<Ball>, bricks: seq<Brick>, frozen: seq<Ball>)
    requires Motion(g, leftPressed, rightPressed, paddle, balls, bricks)
    requires |frozen| == |balls|
    requires forall k :: 0 <= k < |balls| ==> frozen[k] == balls[k].(speed := frozen[k].speed)
    ensures Motion(g, leftPressed, rightPressed, paddle, frozen, bricks)
  {
  }

  /** What a tick promises about its result `r`, in the order the end of
      `game_loop` decides: the outcome is a win iff no brick is left (every
      ball's speed then switched off), else a lost ball iff no ball is left
      (one life less, game over iff lives drop below zero), else the game
      continues with lives untouched; the ball cap holds; the bricks have only
      worn down; the running invariant is kept unless the game was won; and
      the paddle, balls and bricks moved as `Motion` says. */
  predicate Ticked(g: GameState, leftPressed: bool, rightPressed: bool, r: TickResult)
    requires Playable(g)
  {
    && (r.outcome == Win <==> LiveCount(r.state.bricks) == 0)
    && (r.outcome == Win ==>
         r.state.lives == g.lives && forall k :: 0 <= k < |r.state.balls| ==> r.state.balls[k].speed.None?)
    && ((r.outcome == GameOver || r.outcome == Reset) <==>
         LiveCount(r.state.bricks) > 0 && |r.state.balls| == 0)
    && ((r.outcome == GameOver || r.outcome == Reset) ==> r.state.lives == g.lives - 1)
    && (r.outcome == GameOver <==> r.state.lives < 0 && r.state.lives == g.lives - 1 && |r.state.balls| == 0)
    && (r.outcome == Continue ==> r.state.lives == g.lives && |r.state.balls| > 0 && LiveCount(r.state.bricks) > 0)
    && (|g.balls| <= BallCap ==> |r.state.balls| <= BallCap)
    && Worn(g.bricks, r.state.bricks) && AllValid(r.state.bricks)
    && LiveCount(r.state.bricks) <= LiveCount(g.bricks)
    && (r.outcome != Win ==> AllMoving(r.state.balls))
    && r.state.width == g.width && r.state.carried == KeepsCarried(g, leftPressed, rightPressed)
    && (Inv(g) && r.outcome != Win ==> Inv(r.state))
    && Motion(g, leftPressed, rightPressed, r.state.paddle, r.state.balls, r.state.bricks)
  }

  /** The end of a tick, applied to any state the moving part can produce,
      gives what `Ticked` promises. */
  lemma Concluded(g: GameState, leftPressed: bool, rightPressed: bool, st: GameState)
    requires Playable(g)
    requires Playable(st) && Worn(g.bricks, st.bricks)
    requires st.lives == g.lives && st.width == g.width
    requires st.carried == KeepsCarried(g, leftPressed, rightPressed)
    requires Motion(g, leftPressed, rightPressed, st.paddle, st.balls, st.bricks)
    requires |g.balls| <= BallCap ==> |st.balls| <= BallCap
    requires Inv(g) ==> Inv(st)
    ensures Ticked(g, leftPressed, rightPressed, Decide(st))
  {
    LiveCountMonotone(g.bricks, st.bricks);
    var r := Decide(st);
    if r.outcome == Win {
      MotionIgnoresSpeed(g, leftPressed, rightPressed, st.paddle, st.balls, st.bricks, r.state.balls);
    }
  }

  /** One tick of the game with the given key states and random choices. */
  method Tick(g: GameState, leftPressed: bool, rightPressed: bool, coin: nat -> bool) returns (r: TickResult)
    requires Playable(g)
    ensures Ticked(g, leftPressed, rightPressed, r)
    ensures r == Decide(Moved(g, leftPressed, rightPressed, coin))
  {
    var st := Advance(g, leftPressed, rightPressed, coin);
    Concluded(g, leftPressed, rightPressed, st);
    r := Decide(st);
  }

  // ---------------------------------------------------------------------
  // Rounds

  /** A new round: the old balls are cleared and one ball is placed above the
      centre of the paddle, resting on it. */
  function SetupRound(g: GameState): (r: GameState)
    ensures |r.balls| == 1 && r.carried && Carried(r) == Some(r.balls[0])
    ensures r.balls[0] == NewBall(CenterX(g.paddle.box), BallStartY)
    ensures CenterX(r.balls[0].box) == CenterX(g.paddle.box) && CenterY(r.balls[0].box) == BallStartY
    ensures r.lives == g.lives && r.paddle == g.paddle && r.bricks == g.bricks && r.width == g.width
    ensures Inv(g) ==> Inv(r)
  {
    g.(balls := [NewBall(CenterX(g.paddle.box), BallStartY)], carried := true)
  }

  /** Launching: the paddle lets go of the ball; nothing else changes. */
  function StartGame(g: GameState): (r: GameState)
    ensures !r.carried && Carried(r) == None
    ensures r.lives == g.lives && r.balls == g.balls && r.bricks == g.bricks
    ensures r.paddle == g.paddle && r.width == g.width
  {
    g.(carried := false)
  }

  /** The game as built: three lives, the paddle at rest centred on the
      configured field's middle, the brick wall, and the first round set up
      with the ball resting on the paddle. */
  function NewGame(width: real): (g: GameState)
    ensures g.lives == StartLives && |g.balls| == 1 && Carried(g) == Some(g.balls[0])
    ensures g.balls[0] == NewBall(FieldWidth as real / 2.0, BallStartY)
    ensures g.bricks == InitialBricks(FieldWidth)
    ensures |g.bricks| == 24 && AllValid(g.bricks)
    ensures forall j :: 0 <= j < |g.bricks| ==> g.bricks[j].onCanvas
    ensures g.paddle.velocity == 0.0 && CenterX(g.paddle.box) == FieldWidth as real / 2.0
    ensures g.width == width
  {
    InitialWall();
    var paddle := NewPaddle(FieldWidth as real / 2.0, PaddleY);
    SetupRound(GameState(StartLives, width, paddle, false, [], InitialBricks(FieldWidth)))
  }

  /** The new game has 24 live bricks needing 48 hits in all. */
  lemma NewGameWall(width: real)
    ensures LiveCount(NewGame(width).bricks) == 24
    ensures TotalHits(NewGame(width).bricks) == 48
  {
    var g := NewGame(width);
    InitialWall();
    LiveCountAll(g.bricks);
  }

  /** The new game satisfies the running-game invariant on any canvas at least
      as wide as the paddle's right edge (365). */
  lemma NewGameInv(width: real)
    requires width >= 365.0
    ensures Inv(NewGame(width))
  {
  }

  lemma {:induction false} LiveCountAll(bricks: seq<Brick>)
    requires forall j :: 0 <= j < |bricks| ==> bricks[j].onCanvas
    ensures LiveCount(bricks) == |bricks|
  {
    if |bricks| > 0 {
      LiveCountAll(bricks[1..]);
    }
  }
}
