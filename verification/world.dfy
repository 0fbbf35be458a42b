/** The tile grid of world.h: a column-major array of `short`s with
    bounds-checked access, column-height terrain and a box-versus-tiles test. */
module TileWorld {
  type Short = x: int | -0x8000 <= x < 0x8000

  datatype World = World(width: nat, height: nat, data: seq<Short>)

  predicate Valid(w: World) {
    |w.data| == w.width * w.height
  }

  predicate InRange(w: World, x: int, y: int) {
    -1 < x < w.width && -1 < y < w.height
  }

  /** Cell (x, y) lives at `x*height + y`. */
  function Slot(w: World, x: int, y: int): (k: nat)
    requires InRange(w, x, y)
    ensures k < w.width * w.height
  {
    SlotBound(w.width, w.height, x, y);
    x * w.height + y
  }

  lemma {:induction false} SlotBound(width: nat, height: nat, x: nat, y: nat)
    requires x < width && y < height
    ensures x * height + y < width * height
  {
    assert (x + 1) * height <= width * height;
  }

  /** A lower column starts at least a whole column earlier. */
  lemma {:induction false} SlotOrder(height: nat, x: nat, y: nat, x': nat, y': nat)
    requires y < height && y' < height && x < x'
    ensures x * height + y < x' * height + y'
  {
    assert x' * height == (x' - x - 1) * height + (x + 1) * height;
    assert (x + 1) * height == x * height + height;
  }

  /** Distinct cells have distinct slots. */
  lemma {:induction false} SlotInjective(w: World, x: int, y: int, x': int, y': int)
    requires InRange(w, x, y) && InRange(w, x', y')
    ensures Slot(w, x, y) == Slot(w, x', y') ==> x == x' && y == y'
  {
    if x < x' {
      SlotOrder(w.height, x, y, x', y');
    } else if x' < x {
      SlotOrder(w.height, x', y', x, y);
    }
  }

  /** `Get`: the stored value, or 0 outside the grid. */
  function Get(w: World, x: int, y: int): (r: Short)
    requires Valid(w)
    ensures !InRange(w, x, y) ==> r == 0
    ensures InRange(w, x, y) ==> r == w.data[Slot(w, x, y)]
  {
    if InRange(w, x, y) then w.data[Slot(w, x, y)] else 0
  }

  /** `Set`: writes one cell, and does nothing outside the grid. */
  function Set(w: World, x: int, y: int, val: Short): (r: World)
    requires Valid(w)
    ensures Valid(r) && r.width == w.width && r.height == w.height
    ensures !InRange(w, x, y) ==> r == w
  {
    if InRange(w, x, y) then w.(data := w.data[Slot(w, x, y) := val]) else w
  }

  /** After `Set(x, y, val)`, `Get(x, y)` is `val` in range, and every other
      cell reads as before. */
  lemma {:induction false} SetThenGet(w: World, x: int, y: int, val: Short, x': int, y': int)
    requires Valid(w)
    ensures Get(Set(w, x, y, val), x', y')
         == if InRange(w, x, y) && x' == x && y' == y then val else Get(w, x', y')
  {
    if InRange(w, x, y) && InRange(w, x', y') {
      SlotInjective(w, x, y, x', y');
    }
  }

  /** The height of the first column before any change. */
  const StartHeight := 12

  /** What the random draw decides for a column: 0 (nine times in ten), or a
      step of 1 up or down. */
  predicate Step(c: int) {
    -1 <= c <= 1
  }

  /** The column heights `Generate` produces from the steps it draws. */
  function Heights(steps: seq<int>): (h: seq<int>)
    ensures |h| == |steps|
  {
    if steps == [] then []
    else
      var before := Heights(steps[..|steps| - 1]);
      var prev := if before == [] then StartHeight else before[|before| - 1];
      before + [prev + steps[|steps| - 1]]
  }

  /** Neighbouring columns differ by at most one, and the first column is
      within one of the start height. */
  lemma {:induction false} HeightsSmooth(steps: seq<int>)
    requires forall k :: 0 <= k < |steps| ==> Step(steps[k])
    ensures var h := Heights(steps);
      (|h| > 0 ==> StartHeight - 1 <= h[0] <= StartHeight + 1)
      && forall i :: 0 < i < |h| ==> -1 <= h[i] - h[i - 1] <= 1
  {
    if steps != [] {
      var init := steps[..|steps| - 1];
      HeightsSmooth(init);
      assert Heights(steps)[..|init|] == Heights(init);
    }
  }

  /** `Generate`: column by column, cell `j` of column `i` becomes 1 when
      `j < h` and 0 otherwise, where `h` is the previous height plus the step. */
  method Generate(w: World, steps: seq<int>) returns (r: World)
    requires Valid(w) && |steps| == w.width
    ensures Valid(r) && r.width == w.width && r.height == w.height
    ensures forall x, y :: InRange(w, x, y) ==> Get(r, x, y) == if y < Heights(steps)[x] then 1 else 0
  {
    var heights := Heights(steps);
    var data := w.data;
    var i := 0;
    while i < w.width
      invariant 0 <= i <= w.width && |data| == w.width * w.height
      invariant forall x, y :: 0 <= x < i && 0 <= y < w.height ==> data[Slot(w, x, y)] == if y < heights[x] then 1 else 0
    {
      var h := heights[i];
      var j := 0;
      while j < w.height
        invariant 0 <= j <= w.height && |data| == w.width * w.height
        invariant forall x, y :: 0 <= x < i && 0 <= y < w.height ==> data[Slot(w, x, y)] == if y < heights[x] then 1 else 0
        invariant forall y :: 0 <= y < j ==> data[Slot(w, i, y)] == if y < h then 1 else 0
      {
        data := Write(w, data, i, j, if j < h then 1 else 0);
        j := j + 1;
      }
      i := i + 1;
    }
    r := w.(data := data);
    assert forall x, y :: InRange(w, x, y) ==> Get(r, x, y) == data[Slot(w, x, y)];
  }

  /** Writing one slot leaves every other cell alone. */
  function Write(w: World, data: seq<Short>, x: int, y: int, v: Short): (r: seq<Short>)
    requires |data| == w.width * w.height && InRange(w, x, y)
    ensures |r| == |data| && r[Slot(w, x, y)] == v
    ensures forall x', y' :: InRange(w, x', y') && (x', y') != (x, y) ==> r[Slot(w, x', y')] == data[Slot(w, x', y')]
  {
    SlotsApart(w, x, y);
    data[Slot(w, x, y) := v]
  }

  lemma {:induction false} SlotsApart(w: World, x: int, y: int)
    requires InRange(w, x, y)
    ensures forall x', y' :: InRange(w, x', y') && (x', y') != (x, y) ==> Slot(w, x', y') != Slot(w, x, y)
  {
    forall x', y' | InRange(w, x', y') && (x', y') != (x, y) ensures Slot(w, x', y') != Slot(w, x, y) {
      SlotInjective(w, x, y, x', y');
    }
  }

  /** `World::create`: a zero-filled grid, then `Generate`. Every cell ends
      0 or 1, and each column is solid exactly below its height. */
  method Create(width: nat, height: nat, steps: seq<int>) returns (w: World)
    requires |steps| == width
    ensures Valid(w) && w.width == width && w.height == height
    ensures forall x, y :: InRange(w, x, y) ==> Get(w, x, y) == 0 || Get(w, x, y) == 1
    ensures forall x, y :: InRange(w, x, y) ==> (Get(w, x, y) == 1 <==> y < Heights(steps)[x])
  {
    var zeroed := World(width, height, seq(width * height, _ => 0));
    w := Generate(zeroed, steps);
  }

  /** `(int)` of a float: truncation toward zero. */
  function Trunc(r: real): (i: int)
    ensures r >= 0.0 ==> i as real <= r < i as real + 1.0
    ensures r < 0.0 ==> i as real - 1.0 < r <= i as real
  {
    if r >= 0.0 then r.Floor else -((-r).Floor)
  }

  /** The tile under a point, in pixels; tiles are 16 pixels square. */
  function GetPoint(w: World, px: real, py: real): (r: bool)
    requires Valid(w)
    ensures r <==> Get(w, Trunc(px / 16.0), Trunc(py / 16.0)) != 0
  {
    Get(w, Trunc(px / 16.0), Trunc(py / 16.0)) != 0
  }

  /** Some tile with column in [x0, x1) and row in [y0, y1) is set. */
  predicate AnySolid(w: World, x0: int, x1: int, y0: int, y1: int)
    requires Valid(w)
  {
    exists i, j :: x0 <= i < x1 && y0 <= j < y1 && Get(w, i, j) != 0
  }

  /** `Collision`: scans the tiles the box touches, rounding its corners toward
      zero and taking one more column and row past the far corner. */
  method Collision(w: World, minX: real, minY: real, maxX: real, maxY: real) returns (hit: bool)
    requires Valid(w)
    ensures hit <==> AnySolid(w, Trunc(minX / 16.0), Trunc(maxX / 16.0) + 1, Trunc(minY / 16.0), Trunc(maxY / 16.0) + 1)
  {
    var x0, y0 := Trunc(minX / 16.0), Trunc(minY / 16.0);
    var x1, y1 := Trunc(maxX / 16.0) + 1, Trunc(maxY / 16.0) + 1;
    var i := x0;
    while i < x1
      invariant x0 <= i || x1 <= x0
      invariant !AnySolid(w, x0, i, y0, y1)
      decreases x1 - i
    {
      var j := y0;
      while j < y1
        invariant y0 <= j || y1 <= y0
        invariant forall j' :: y0 <= j' < j ==> Get(w, i, j') == 0
        decreases y1 - j
      {
        if Get(w, i, j) != 0 {
          return true;
        }
        j := j + 1;
      }
      i := i + 1;
    }
    return false;
  }
}
