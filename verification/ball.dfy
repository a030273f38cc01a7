/** The ball: a circle of radius 10 whose direction is a pair of signs and
    whose speed is a separate magnitude (switched off, `None`, when the game
    is won). Models `Ball.update` and `Ball.collide`. */
module Balls {
  import opened Wrappers
  import opened Geometry

  const Radius: real := 10.0
  const InitialSpeed: real := 3.0

  /** `dx` and `dy` are the two entries of the ball's direction list. */
  datatype Ball = Ball(box: Rect, dx: int, dy: int, speed: Option<real>)

  /** The invariant the game keeps: both direction components are exactly 1 or -1. */
  predicate UnitDir(b: Ball)
  {
    (b.dx == 1 || b.dx == -1) && (b.dy == 1 || b.dy == -1)
  }

  /** A fresh ball centred on (x, y): moving right and up at the initial speed. */
  function NewBall(x: real, y: real): (b: Ball)
    ensures CenterX(b.box) == x && CenterY(b.box) == y
    ensures Width(b.box) == 2.0 * Radius && b.box.bottom - b.box.top == 2.0 * Radius
    ensures b.dx == 1 && b.dy == -1 && UnitDir(b)
    ensures b.speed == Some(InitialSpeed)
  {
    Ball(Around(x, y, Radius, Radius), 1, -1, Some(InitialSpeed))
  }

  /** One tick of free flight: bounce off the side walls and the ceiling, then
      move by the (new) direction scaled by the speed. The bottom edge is the
      game loop's business, not the ball's. */
  function Update(b: Ball, width: real): (r: Ball)
    requires b.speed.Some?
    ensures r.dx == b.dx || r.dx == -b.dx
    ensures r.dy == b.dy || r.dy == -b.dy
    ensures b.dx != 0 ==> (r.dx == -b.dx <==> b.box.left <= 0.0 || b.box.right >= width)
    ensures b.dy != 0 ==> (r.dy == -b.dy <==> b.box.top <= 0.0)
    ensures r.box == Translate(b.box, r.dx as real * b.speed.value, r.dy as real * b.speed.value)
    ensures r.speed == b.speed
    ensures UnitDir(b) ==> UnitDir(r)
  {
    var dx := if b.box.left <= 0.0 || b.box.right >= width then -b.dx else b.dx;
    var dy := if b.box.top <= 0.0 then -b.dy else b.dy;
    var s := b.speed.value;
    Ball(Translate(b.box, dx as real * s, dy as real * s), dx, dy, b.speed)
  }

  /** A ball that starts horizontally inside the field ends the tick at most
      one step beyond either wall. */
  lemma UpdateStaysNearField(b: Ball, width: real)
    requires b.speed.Some? && b.speed.value >= 0.0 && UnitDir(b)
    requires InsideX(b.box, width)
    ensures var r := Update(b, width);
      -b.speed.value <= r.box.left && r.box.right <= width + b.speed.value
  {
  }

  /** Flipping rather than setting the horizontal sign traps a ball that sits
      in the left wall while heading right: two ticks later it is back where
      it started, still heading right, so it never leaves the wall. */
  lemma LeftWallTrap(b: Ball, width: real)
    requires b.speed.Some? && b.speed.value > 0.0
    requires b.dx == 1 && b.box.left + b.speed.value <= 0.0
    requires b.box.right < width
    ensures var once := Update(b, width);
      once.dx == -1 && once.box.left < b.box.left && once.speed.Some?
    ensures var twice := Update(Update(b, width), width);
      twice.dx == 1 && twice.box.left == b.box.left && twice.box.right == b.box.right
  {
  }

  /** What the collision query reports: the paddle or a brick (by its index
      among the game's bricks), each with its bounding box. */
  datatype Obj = PaddleObj(box: Rect) | BrickObj(id: nat, box: Rect)

  /** The ball after resolving a contact, the bricks it hits (in the order
      they were reported) and whether it hit any brick at all. */
  datatype Collision = Collision(ball: Ball, hits: seq<nat>, hitBrick: bool)

  predicate HasBrick(objs: seq<Obj>)
  {
    exists i :: 0 <= i < |objs| && objs[i].BrickObj?
  }

  /** Brick identifiers appear in strictly increasing order. */
  predicate AscendingBrickIds(objs: seq<Obj>)
  {
    forall i, j :: 0 <= i < j < |objs| && objs[i].BrickObj? && objs[j].BrickObj? ==> objs[i].id < objs[j].id
  }

  predicate Distinct(s: seq<nat>)
  {
    forall i, j :: 0 <= i < j < |s| ==> s[i] != s[j]
  }

  predicate Ascending(s: seq<nat>)
  {
    forall i, j :: 0 <= i < j < |s| ==> s[i] < s[j]
  }

  /** The object list reports the brick with this identifier. */
  predicate Reports(objs: seq<Obj>, id: nat)
  {
    exists i :: 0 <= i < |objs| && objs[i].BrickObj? && objs[i].id == id
  }

  lemma ReportsCons(o: Obj, rest: seq<Obj>)
    ensures forall id :: Reports([o] + rest, id) <==> (o.BrickObj? && o.id == id) || Reports(rest, id)
  {
    var objs := [o] + rest;
    forall id | Reports(rest, id) ensures Reports(objs, id) {
      var i :| 0 <= i < |rest| && rest[i].BrickObj? && rest[i].id == id;
      assert objs[i + 1] == rest[i];
    }
    forall id | Reports(objs, id) && !(o.BrickObj? && o.id == id) ensures Reports(rest, id) {
      var i :| 0 <= i < |objs| && objs[i].BrickObj? && objs[i].id == id;
      assert i > 0 && rest[i - 1] == objs[i];
    }
    if o.BrickObj? {
      assert objs[0] == o;
    }
  }

  /** The bricks among the reported objects, in order: the ones `collide`
      calls `hit` on. The paddle is never among them. */
  function BrickIds(objs: seq<Obj>): (ids: seq<nat>)
    ensures |ids| <= |objs|
    ensures forall id :: id in ids <==> Reports(objs, id)
  {
    if |objs| == 0 then []
    else
      var rest := BrickIds(objs[1..]);
      assert objs == [objs[0]] + objs[1..];
      ReportsCons(objs[0], objs[1..]);
      if objs[0].BrickObj? then [objs[0].id] + rest else rest
  }

  lemma {:induction false} BrickIdsEmpty(objs: seq<Obj>)
    ensures |BrickIds(objs)| == 0 <==> !HasBrick(objs)
  {
    if HasBrick(objs) {
      var i :| 0 <= i < |objs| && objs[i].BrickObj?;
      assert Reports(objs, objs[i].id);
    }
    var ids := BrickIds(objs);
    if |ids| > 0 {
      assert ids[0] in ids;
    }
  }

  /** When the reported bricks are listed in ascending identifier order (as the
      canvas reports them), so are the bricks hit; in particular no brick is hit
      twice by one collision. */
  lemma {:induction false} BrickIdsAscending(objs: seq<Obj>)
    ensures AscendingBrickIds(objs) ==> Ascending(BrickIds(objs)) && Distinct(BrickIds(objs))
  {
    if |objs| > 0 && AscendingBrickIds(objs) {
      var tail := objs[1..];
      assert AscendingBrickIds(tail) by {
        forall i, j | 0 <= i < j < |tail| && tail[i].BrickObj? && tail[j].BrickObj?
          ensures tail[i].id < tail[j].id
        {
          assert tail[i] == objs[i + 1] && tail[j] == objs[j + 1];
        }
      }
      BrickIdsAscending(tail);
      var rest := BrickIds(tail);
      if objs[0].BrickObj? {
        forall k | 0 <= k < |rest| ensures objs[0].id < rest[k] {
          assert Reports(tail, rest[k]);
          var i :| 0 <= i < |tail| && tail[i].BrickObj? && tail[i].id == rest[k];
          assert tail[i] == objs[i + 1];
        }
      }
    }
  }

  /** Resolves the contact of a ball with everything that overlaps it: with
      several objects the ball bounces vertically; with exactly one, a ball
      whose centre lies beyond the object's right edge is sent right, beyond
      its left edge sent left, and otherwise bounces vertically. Every brick
      reported is hit, whichever branch was taken. */
  function Collide(b: Ball, objs: seq<Obj>): (r: Collision)
    ensures |objs| == 0 ==> r.ball == b
    ensures |objs| > 1 ==> r.ball == b.(dy := -b.dy)
    ensures |objs| == 1 && CenterX(b.box) > objs[0].box.right ==> r.ball == b.(dx := 1)
    ensures |objs| == 1 && CenterX(b.box) < objs[0].box.left && !(CenterX(b.box) > objs[0].box.right)
      ==> r.ball == b.(dx := -1)
    ensures |objs| == 1 && objs[0].box.left <= CenterX(b.box) <= objs[0].box.right
      ==> r.ball == b.(dy := -b.dy)
    ensures r.ball.box == b.box && r.ball.speed == b.speed
    ensures UnitDir(b) ==> UnitDir(r.ball)
    ensures r.hitBrick <==> HasBrick(objs)
    ensures forall id :: id in r.hits <==> Reports(objs, id)
    ensures AscendingBrickIds(objs) ==> Ascending(r.hits)
  {
    var x := CenterX(b.box);
    var ball :=
      if |objs| > 1 then b.(dy := -b.dy)
      else if |objs| == 1 then
        if x > objs[0].box.right then b.(dx := 1)
        else if x < objs[0].box.left then b.(dx := -1)
        else b.(dy := -b.dy)
      else b;
    var ids := BrickIds(objs);
    BrickIdsEmpty(objs);
    BrickIdsAscending(objs);
    Collision(ball, ids, |ids| > 0)
  }

  /** Touching only the paddle: a ball whose centre is off the paddle's left
      end is sent left, off its right end sent right, and over the paddle it
      bounces vertically; the paddle is never hit like a brick. */
  lemma PaddleContact(b: Ball, paddle: Rect)
    requires paddle.left <= paddle.right
    ensures var r := Collide(b, [PaddleObj(paddle)]);
      && (CenterX(b.box) < paddle.left ==> r.ball.dx == -1 && r.ball.dy == b.dy)
      && (CenterX(b.box) > paddle.right ==> r.ball.dx == 1 && r.ball.dy == b.dy)
      && (paddle.left <= CenterX(b.box) <= paddle.right ==> r.ball.dx == b.dx && r.ball.dy == -b.dy)
      && r.hits == [] && !r.hitBrick
  {
  }
}
