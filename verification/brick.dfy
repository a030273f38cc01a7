/** Bricks: a rectangle with a hit counter whose colour tracks the counter and
    which leaves the canvas when the counter reaches zero. Models `Brick.hit`,
    the colour table and the brick wall laid out when the game is built. */
module Bricks {
  import opened Geometry

  const HalfWidth: real := 37.5
  const HalfHeight: real := 10.0

  /** Colour of a brick by the number of hits it still takes. */
  const Colors: map<int, string> := map[1 := "#00D2FF", 2 := "#FF00FF", 3 := "#9D00FF"]

  /** `onCanvas` is false once the brick's shape has been deleted; the brick
      itself stays in the game's object table. */
  datatype Brick = Brick(box: Rect, hits: int, color: string, onCanvas: bool)

  /** A brick on the canvas has 1 to 3 hits left and the colour for that
      count; a deleted brick has none left. */
  predicate Valid(b: Brick)
  {
    if b.onCanvas then b.hits in Colors && b.color == Colors[b.hits] else b.hits == 0
  }

  /** A brick centred on (x, y); the hit count must have a colour. */
  function NewBrick(x: real, y: real, hits: int): (b: Brick)
    requires hits in Colors
    ensures b.onCanvas && b.hits == hits && Valid(b)
    ensures CenterX(b.box) == x && CenterY(b.box) == y
    ensures Width(b.box) == 2.0 * HalfWidth && b.box.bottom - b.box.top == 2.0 * HalfHeight
  {
    Brick(Around(x, y, HalfWidth, HalfHeight), hits, Colors[hits], true)
  }

  /** Hitting the brick leaves a count that is zero or has a colour. */
  predicate Hittable(b: Brick)
  {
    b.hits - 1 == 0 || b.hits - 1 in Colors
  }

  /** One hit: the counter drops by one; at zero the shape is deleted,
      otherwise it is recoloured for the new count. The new count must be zero
      or have a colour. */
  function Hit(b: Brick): (r: Brick)
    requires Hittable(b)
    ensures r.hits == b.hits - 1 && r.box == b.box
    ensures r.hits == 0 ==> !r.onCanvas
    ensures r.hits != 0 ==> r.onCanvas == b.onCanvas && r.color == Colors[r.hits]
    ensures b.onCanvas ==> (r.onCanvas <==> r.hits != 0)
    ensures Valid(b) && b.onCanvas ==> Valid(r)
  {
    var h := b.hits - 1;
    if h == 0 then b.(hits := h, onCanvas := false)
    else b.(hits := h, color := Colors[h])
  }

  /** The brick after `n` hits in a row. */
  function HitTimes(b: Brick, n: nat): (r: Brick)
    requires Valid(b) && b.onCanvas && n <= b.hits
    ensures Valid(r) && r.box == b.box
    ensures r.hits == b.hits - n
    ensures r.onCanvas <==> n < b.hits
    decreases n
  {
    if n == 0 then b else Hit(HitTimes(b, n - 1))
  }

  /** A brick created with h hits stays on the canvas, in the colour of its
      remaining count, for fewer than h hits and is removed by exactly the
      h-th. */
  lemma Countdown(x: real, y: real, h: int, n: nat)
    requires h in Colors && n <= h
    ensures var r := HitTimes(NewBrick(x, y, h), n);
      (r.onCanvas <==> n < h) && (n < h ==> r.color == Colors[h - n])
  {
  }

  /** The three-hit brick goes through the colours for 2 and 1 and then
      disappears. */
  lemma ThreeHitColours(x: real, y: real)
    ensures HitTimes(NewBrick(x, y, 3), 1).color == "#FF00FF"
    ensures HitTimes(NewBrick(x, y, 3), 2).color == "#00D2FF"
    ensures !HitTimes(NewBrick(x, y, 3), 3).onCanvas
  {
  }

  /** The left edges produced by a loop over `range(start, stop, 75)`. */
  function Range(start: int, stop: int): (xs: seq<int>)
    ensures |xs| == if start >= stop then 0 else (stop - start - 1) / 75 + 1
    ensures forall k :: 0 <= k < |xs| ==> xs[k] == start + 75 * k
    decreases stop - start
  {
    if start >= stop then [] else [start] + Range(start + 75, stop)
  }

  /** One column of the wall: a 3-hit, a 2-hit and a 1-hit brick, top to bottom. */
  function Column(x: int): seq<Brick>
  {
    [NewBrick(x as real + HalfWidth, 50.0, 3),
     NewBrick(x as real + HalfWidth, 70.0, 2),
     NewBrick(x as real + HalfWidth, 90.0, 1)]
  }

  /** The wall built from one column per left edge, in creation order. */
  function Wall(xs: seq<int>): (w: seq<Brick>)
    ensures |w| == 3 * |xs|
    ensures forall k :: 0 <= k < |w| ==> w[k].onCanvas && Valid(w[k])
  {
    if |xs| == 0 then []
    else
      var rest := Wall(xs[1..]);
      var w := Column(xs[0]) + rest;
      assert forall k :: 3 <= k < |w| ==> w[k] == rest[k - 3];
      w
  }

  /** Brick `k` of the wall is in column `k / 3` and row `k % 3`: centred
      37.5 right of the column's left edge, at height 50, 70 or 90, with 3, 2
      or 1 hits. */
  lemma {:induction false} WallLayout(xs: seq<int>)
    ensures var w := Wall(xs);
      forall k :: 0 <= k < |w| ==>
        && w[k].hits == 3 - k % 3
        && CenterX(w[k].box) == xs[k / 3] as real + HalfWidth
        && CenterY(w[k].box) == 50.0 + 20.0 * (k % 3) as real
  {
    if |xs| > 0 {
      var w := Wall(xs);
      var rest := Wall(xs[1..]);
      WallLayout(xs[1..]);
      assert w == Column(xs[0]) + rest;
      forall k | 0 <= k < |w|
        ensures w[k].hits == 3 - k % 3
        ensures CenterX(w[k].box) == xs[k / 3] as real + HalfWidth
        ensures CenterY(w[k].box) == 50.0 + 20.0 * (k % 3) as real
      {
        if k >= 3 {
          var m := k - 3;
          assert w[k] == rest[m];
          assert m / 3 == k / 3 - 1 && m % 3 == k % 3;
          assert xs[1..][m / 3] == xs[k / 3];
        }
      }
    }
  }

  /** Sum of the hits left on the bricks. */
  function TotalHits(bricks: seq<Brick>): int
  {
    if |bricks| == 0 then 0 else bricks[0].hits + TotalHits(bricks[1..])
  }

  lemma {:induction false} WallHits(xs: seq<int>)
    ensures TotalHits(Wall(xs)) == 6 * |xs|
  {
    if |xs| > 0 {
      var w := Wall(xs);
      WallHits(xs[1..]);
      var w1, w2 := w[1..], w[1..][1..];
      assert w[0].hits == 3 && w[1].hits == 2 && w[2].hits == 1;
      assert w2[1..] == w[3..] == Wall(xs[1..]);
      assert TotalHits(w) == 3 + TotalHits(w1);
      assert TotalHits(w1) == 2 + TotalHits(w2);
      assert TotalHits(w2) == 1 + TotalHits(w2[1..]);
    }
  }

  /** The wall the game's constructor builds (`Modified.py:176-179`): one
      column of three bricks for each x of `range(5, width - 5, 75)`. */
  function InitialBricks(fieldWidth: int): seq<Brick>
  {
    Wall(Range(5, fieldWidth - 5))
  }

  /** On the 610-wide field the wall has 8 columns: 24 bricks needing 48 hits. */
  lemma InitialWall()
    ensures |InitialBricks(610)| == 24
    ensures forall k :: 0 <= k < 24 ==> InitialBricks(610)[k].onCanvas && Valid(InitialBricks(610)[k])
    ensures TotalHits(InitialBricks(610)) == 48
  {
    WallHits(Range(5, 605));
  }
}
