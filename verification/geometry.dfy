// Grid geometry shared by the movement and level-transition layers: Godot's
// Vector2 with exact real components, the grid constant, rounding to the grid,
// and the vector helpers (MoveToward, Lerp) the movement code calls.

module Geometry {

  datatype Option<T> = None | Some(value: T)

  /** Godot's Vector2, with exact real components instead of 32-bit floats. */
  datatype Vec = Vec(x: real, y: real) {
    function Plus(o: Vec): Vec { Vec(x + o.x, y + o.y) }
    function Minus(o: Vec): Vec { Vec(x - o.x, y - o.y) }
    function Scale(k: real): Vec { Vec(x * k, y * k) }
  }

  // Godot's named vectors; the y axis points down the screen.
  const Zero := Vec(0.0, 0.0)
  const Up := Vec(0.0, -1.0)
  const Down := Vec(0.0, 1.0)
  const Left := Vec(-1.0, 0.0)
  const Right := Vec(1.0, 0.0)

  predicate IsCardinal(d: Vec) { d == Up || d == Down || d == Left || d == Right }

  /**
   * Globals.GRID_SIZE: side of one grid cell, in pixels. The source's integer
   * 16 is only ever used in float arithmetic, so it is kept here as a real.
   */
  const Grid: real := 16.0

  /** A Node2D of the scene tree: a name and a position. */
  class Node2D {
    const Name: string
    var Position: Vec

    constructor (name: string, position: Vec)
      ensures Name == name && Position == position
    {
      Name := name;
      Position := position;
    }
  }

  function Abs(r: real): real { if r < 0.0 then -r else r }
  function Max(a: real, b: real): real { if a < b then b else a }
  function Min(a: real, b: real): real { if a < b then a else b }

  /**
   * C#'s MathF.Round with its default MidpointRounding.ToEven: the nearest
   * integer, ties going to the even neighbour.
   */
  function RoundHalfEven(r: real): (n: int)
    ensures r - 0.5 <= n as real <= r + 0.5
    ensures n as real == r - 0.5 || n as real == r + 0.5 ==> n % 2 == 0
  {
    var f := r.Floor;
    var frac := r - f as real;
    if frac < 0.5 then f
    else if frac > 0.5 then f + 1
    else if f % 2 == 0 then f else f + 1
  }

  /** The two properties of RoundHalfEven determine its result. */
  lemma RoundHalfEvenUnique(r: real, m: int)
    requires r - 0.5 <= m as real <= r + 0.5
    requires m as real == r - 0.5 || m as real == r + 0.5 ==> m % 2 == 0
    ensures m == RoundHalfEven(r)
  {
  }

  /** v is a whole number of grid cells. */
  predicate OnGrid(v: real) { (v / Grid).Floor as real * Grid == v }

  predicate OnGridVec(p: Vec) { OnGrid(p.x) && OnGrid(p.y) }

  lemma MultipleOnGrid(k: int)
    ensures OnGrid(k as real * Grid)
  {
    assert (k as real * Grid) / Grid == k as real;
  }

  /** One coordinate of SnapPositionToGrid: Mathf.Round(v / GRID_SIZE) * GRID_SIZE. */
  function SnapCoord(v: real): (r: real)
    ensures OnGrid(r)
    ensures v - Grid / 2.0 <= r <= v + Grid / 2.0
  {
    var n := RoundHalfEven(v / Grid);
    MultipleOnGrid(n);
    n as real * Grid
  }

  function SnapVec(p: Vec): (r: Vec)
    ensures OnGridVec(r)
  {
    Vec(SnapCoord(p.x), SnapCoord(p.y))
  }

  /** Snapping a value within half a cell of a grid line lands exactly on that line. */
  lemma SnapCoordNear(v: real, t: real)
    requires OnGrid(t)
    requires Abs(v - t) < Grid / 2.0
    ensures SnapCoord(v) == t
  {
    var k := (t / Grid).Floor;
    assert t == k as real * Grid;
    var n := RoundHalfEven(v / Grid);
    assert k as real - 0.5 < v / Grid < k as real + 0.5;
    assert k as real - 1.0 < n as real < k as real + 1.0;
    assert n == k;
  }

  /** Snapping is the identity on grid-aligned values. */
  lemma SnapCoordOnGrid(v: real)
    requires OnGrid(v)
    ensures SnapCoord(v) == v
  {
    SnapCoordNear(v, v);
  }

  lemma SnapVecNear(p: Vec, t: Vec)
    requires OnGridVec(t)
    requires Abs(p.x - t.x) < Grid / 2.0 && Abs(p.y - t.y) < Grid / 2.0
    ensures SnapVec(p) == t
  {
    SnapCoordNear(p.x, t.x);
    SnapCoordNear(p.y, t.y);
  }

  /**
   * Distance between two points, measured as |dx| + |dy|. On the axis-aligned
   * displacements that grid steps produce this is Vector2.DistanceTo exactly.
   */
  function Dist(a: Vec, b: Vec): (d: real)
    ensures 0.0 <= d
    ensures d == 0.0 <==> a == b
  {
    Abs(b.x - a.x) + Abs(b.y - a.y)
  }

  lemma DistZero(a: Vec, b: Vec)
    requires Dist(a, b) == 0.0
    ensures a == b
  {
  }

  /**
   * Vector2.MoveToward: the target itself when it is at most delta away,
   * otherwise the point delta further along the segment towards it.
   */
  function MoveToward(from: Vec, to: Vec, delta: real): (r: Vec)
    ensures Dist(from, to) <= delta ==> r == to
    ensures delta == 0.0 ==> r == from
  {
    var d := Dist(from, to);
    if d <= delta || d == 0.0 then to
    else from.Plus(to.Minus(from).Scale(delta / d))
  }

  lemma AbsScale(x: real, k: real)
    requires k >= 0.0
    ensures Abs(x * k) == Abs(x) * k
  {
    if x < 0.0 {
      assert x * k <= 0.0;
    } else {
      assert x * k >= 0.0;
    }
  }

  lemma FractionBelowOne(a: real, b: real)
    requires 0.0 <= a < b
    ensures 0.0 <= a / b < 1.0 && b * (a / b) == a
  {
    var c := a / b;
    assert b * c == a;
  }

  /** Shrinking both components of a displacement by a factor k shrinks its length by k. */
  lemma ShrinkDisplacement(dx: real, dy: real, k: real)
    requires k >= 0.0
    ensures Abs(dx * k) + Abs(dy * k) == (Abs(dx) + Abs(dy)) * k
  {
    AbsScale(dx, k);
    AbsScale(dy, k);
  }

  /** What is left of a distance d after moving the fraction delta / d of it. */
  lemma Remaining(d: real, delta: real)
    requires 0.0 < d
    ensures d * (1.0 - delta / d) == d - delta
  {
    assert d * (delta / d) == delta;
  }

  /** Moving a fraction c of the way to the target leaves the fraction 1 - c of the distance. */
  lemma StepAlong(from: Vec, to: Vec, c: real)
    requires 0.0 <= c <= 1.0
    ensures Dist(from.Plus(to.Minus(from).Scale(c)), to) == Dist(from, to) * (1.0 - c)
  {
    var dx, dy := to.x - from.x, to.y - from.y;
    var r := from.Plus(to.Minus(from).Scale(c));
    assert to.x - r.x == dx * (1.0 - c);
    assert to.y - r.y == dy * (1.0 - c);
    ShrinkDisplacement(dx, dy, 1.0 - c);
  }

  /** The point a MoveToward step that stops short of the target reaches. */
  function StepToward(from: Vec, to: Vec, delta: real): Vec
    requires Dist(from, to) != 0.0
  {
    from.Plus(to.Minus(from).Scale(delta / Dist(from, to)))
  }

  /** A step of length delta that stops short of the target leaves d - delta to go. */
  lemma StepTowardDistance(from: Vec, to: Vec, delta: real)
    requires 0.0 <= delta < Dist(from, to)
    ensures Dist(StepToward(from, to, delta), to) == Dist(from, to) - delta
  {
    FractionBelowOne(delta, Dist(from, to));
    StepAlong(from, to, delta / Dist(from, to));
    Remaining(Dist(from, to), delta);
  }

  /**
   * A MoveToward step of length delta >= 0 shortens the distance to the
   * target by exactly delta, stopping at the target, and never overshoots.
   */
  lemma MoveTowardProgress(from: Vec, to: Vec, delta: real)
    requires delta >= 0.0
    ensures Dist(MoveToward(from, to, delta), to) == Max(0.0, Dist(from, to) - delta)
    ensures Dist(from, to) <= delta ==> MoveToward(from, to, delta) == to
  {
    if Dist(from, to) > delta {
      assert MoveToward(from, to, delta) == StepToward(from, to, delta);
      StepTowardDistance(from, to, delta);
    } else {
      assert MoveToward(from, to, delta) == to;
    }
  }

  /** Vector2.Lerp: from + (to - from) * weight. */
  function Lerp(from: Vec, to: Vec, weight: real): (r: Vec)
    ensures weight == 0.0 ==> r == from
    ensures weight == 1.0 ==> r == to
  {
    from.Plus(to.Minus(from).Scale(weight))
  }
}
