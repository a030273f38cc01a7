/** The paddle: a 120 x 12 rectangle driven by the arrow keys through a small
    integrator (acceleration, friction, speed clamp), kept inside the field.
    Models `Paddle.update_physics`. */
module Paddles {
  import opened Wrappers
  import opened Geometry
  import opened Balls

  const PaddleWidth: real := 120.0
  const PaddleHeight: real := 12.0
  const Acceleration: real := 1.5
  const Friction: real := 0.85
  const MaxSpeed: real := 12.0
  /** Below this magnitude the paddle is considered stopped. */
  const StopThreshold: real := 0.1

  datatype Paddle = Paddle(box: Rect, velocity: real)

  /** The paddle after a physics step, and the ball resting on it, if any. */
  datatype Step = Step(paddle: Paddle, carried: Option<Ball>)

  function Abs(x: real): real
  {
    if x < 0.0 then -x else x
  }

  /** A paddle centred on (x, y), at rest. */
  function NewPaddle(x: real, y: real): (p: Paddle)
    ensures CenterX(p.box) == x && CenterY(p.box) == y
    ensures Width(p.box) == PaddleWidth && p.box.bottom - p.box.top == PaddleHeight
    ensures p.velocity == 0.0
  {
    Paddle(Around(x, y, PaddleWidth / 2.0, PaddleHeight / 2.0), 0.0)
  }

  /** The velocity after the key pushes, friction and the clamp. */
  function Driven(v: real, leftPressed: bool, rightPressed: bool): (r: real)
    ensures -MaxSpeed <= r <= MaxSpeed
    ensures !leftPressed && !rightPressed ==> Abs(r) <= Friction * Abs(v)
    ensures leftPressed == rightPressed && -MaxSpeed <= v <= MaxSpeed ==> r == v * Friction
    ensures -MaxSpeed <= v <= MaxSpeed && leftPressed && !rightPressed ==> r == (v - Acceleration) * Friction
    ensures -MaxSpeed <= v <= MaxSpeed && rightPressed && !leftPressed ==> r == (v + Acceleration) * Friction
  {
    var v1 := if leftPressed then v - Acceleration else v;
    var v2 := if rightPressed then v1 + Acceleration else v1;
    var v3 := v2 * Friction;
    if v3 > MaxSpeed then MaxSpeed
    else if v3 < -MaxSpeed then -MaxSpeed
    else v3
  }

  /** The carried ball riding along with a normal paddle move: the branch
      that shifts the paddle's ball by the same velocity
      (`Modified.py:122-123`). */
  function MoveBall(b: Option<Ball>, dx: real): Option<Ball>
  {
    if b.Some? then Some(b.value.(box := Translate(b.value.box, dx, 0.0))) else None
  }

  /** One physics step of the paddle. A move that would cross the left wall
      stops the paddle with its left edge exactly on 0, one that would cross
      the right wall stops it with its right edge exactly on `width`; a speed
      below the threshold stops it where it is; otherwise it moves by its
      velocity and carries the resting ball along. */
  function UpdatePhysics(p: Paddle, carried: Option<Ball>, leftPressed: bool, rightPressed: bool, width: real): (r: Step)
    ensures -MaxSpeed <= r.paddle.velocity <= MaxSpeed
    ensures r.paddle.box.top == p.box.top && r.paddle.box.bottom == p.box.bottom
    ensures Width(r.paddle.box) == Width(p.box)
    ensures var v := Driven(p.velocity, leftPressed, rightPressed);
      && (p.box.left + v < 0.0 ==>
            r.paddle.box.left == 0.0 && r.paddle.velocity == 0.0 && r.carried == carried)
      && (p.box.left + v >= 0.0 && p.box.right + v > width ==>
            r.paddle.box.right == width && r.paddle.velocity == 0.0 && r.carried == carried)
      && (p.box.left + v >= 0.0 && p.box.right + v <= width && Abs(v) < StopThreshold ==>
            r.paddle == p.(velocity := 0.0) && r.carried == carried)
      && (p.box.left + v >= 0.0 && p.box.right + v <= width && Abs(v) >= StopThreshold ==>
            r.paddle.velocity == v && r.paddle.box == Translate(p.box, v, 0.0)
            && r.carried == MoveBall(carried, v))
    ensures r.paddle.velocity != 0.0 ==>
      r.paddle.box == Translate(p.box, r.paddle.velocity, 0.0) && r.carried == MoveBall(carried, r.paddle.velocity)
    ensures r.paddle.velocity == 0.0 ==> r.carried == carried
    ensures r.carried.Some? <==> carried.Some?
    ensures InsideX(p.box, width) ==> InsideX(r.paddle.box, width)
    ensures !leftPressed && !rightPressed ==> Abs(r.paddle.velocity) <= Friction * Abs(p.velocity)
  {
    var v := Driven(p.velocity, leftPressed, rightPressed);
    if p.box.left + v < 0.0 then
      Step(Paddle(Translate(p.box, -p.box.left, 0.0), 0.0), carried)
    else if p.box.right + v > width then
      Step(Paddle(Translate(p.box, width - p.box.right, 0.0), 0.0), carried)
    else if Abs(v) < StopThreshold then
      Step(p.(velocity := 0.0), carried)
    else
      Step(Paddle(Translate(p.box, v, 0.0), v), MoveBall(carried, v))
  }

  /** The paddle after a sequence of ticks with the given key states and no
      resting ball. */
  function Run(p: Paddle, keys: seq<(bool, bool)>, width: real): Paddle
    decreases |keys|
  {
    if |keys| == 0 then p
    else Run(UpdatePhysics(p, None, keys[0].0, keys[0].1, width).paddle, keys[1..], width)
  }

  /** Whatever keys are held, a paddle that starts inside the field stays
      inside it and its speed stays within the limit. */
  lemma {:induction false} RunStaysInField(p: Paddle, keys: seq<(bool, bool)>, width: real)
    requires InsideX(p.box, width) && -MaxSpeed <= p.velocity <= MaxSpeed
    ensures InsideX(Run(p, keys, width).box, width)
    ensures -MaxSpeed <= Run(p, keys, width).velocity <= MaxSpeed
    ensures Width(Run(p, keys, width).box) == Width(p.box)
    decreases |keys|
  {
    if |keys| > 0 {
      RunStaysInField(UpdatePhysics(p, None, keys[0].0, keys[0].1, width).paddle, keys[1..], width);
    }
  }

  /** The paddle after `n` ticks with no key held. */
  function Coast(p: Paddle, n: nat, width: real): Paddle
    decreases n
  {
    if n == 0 then p else Coast(UpdatePhysics(p, None, false, false, width).paddle, n - 1, width)
  }

  lemma {:induction false} CoastSplit(p: Paddle, m: nat, n: nat, width: real)
    ensures Coast(p, m + n, width) == Coast(Coast(p, m, width), n, width)
    decreases m
  {
    if m > 0 {
      CoastSplit(UpdatePhysics(p, None, false, false, width).paddle, m - 1, n, width);
    }
  }

  /** Five ticks without keys at least halve the speed. */
  lemma CoastFive(p: Paddle, width: real)
    ensures Abs(Coast(p, 5, width).velocity) <= Abs(p.velocity) / 2.0
  {
  }

  /** `a` halved `k` times. */
  function Halved(a: real, k: nat): real
    decreases k
  {
    if k == 0 then a else Halved(a / 2.0, k - 1)
  }

  lemma {:induction false} HalvedMonotone(a: real, b: real, k: nat)
    requires a <= b
    ensures Halved(a, k) <= Halved(b, k)
    decreases k
  {
    if k > 0 {
      HalvedMonotone(a / 2.0, b / 2.0, k - 1);
    }
  }

  lemma {:induction false} CoastHalves(p: Paddle, k: nat, width: real)
    ensures Abs(Coast(p, 5 * k, width).velocity) <= Halved(Abs(p.velocity), k)
    decreases k
  {
    if k > 0 {
      var m := 5 * (k - 1);
      assert 5 + m == 5 * k;
      CoastSplit(p, 5, m, width);
      var q := Coast(p, 5, width);
      CoastFive(p, width);
      CoastHalves(q, k - 1, width);
      HalvedMonotone(Abs(q.velocity), Abs(p.velocity) / 2.0, k - 1);
    }
  }

  /** With no key held, a paddle moving at any allowed speed comes to a
      complete stop within 36 ticks: the stopping threshold rules out
      endless drift. */
  lemma CoastStops(p: Paddle, width: real)
    requires -MaxSpeed <= p.velocity <= MaxSpeed
    ensures Coast(p, 36, width).velocity == 0.0
  {
    CoastHalves(p, 7, width);
    var q := Coast(p, 35, width);
    HalvedMonotone(Abs(p.velocity), MaxSpeed, 7);
    assert Halved(MaxSpeed, 7) == 0.09375 by {
      assert Halved(0.09375, 0) == 0.09375;
      assert Halved(0.1875, 1) == 0.09375;
      assert Halved(0.375, 2) == 0.09375;
      assert Halved(0.75, 3) == 0.09375;
      assert Halved(1.5, 4) == 0.09375;
      assert Halved(3.0, 5) == 0.09375;
      assert Halved(6.0, 6) == 0.09375;
    }
    assert Abs(q.velocity) < StopThreshold;
    CoastSplit(p, 35, 1, width);
    assert Coast(q, 1, width) == UpdatePhysics(q, None, false, false, width).paddle;
  }
}
