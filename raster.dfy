/** `draw_line` (src/main.rs:25-50): the digital differential analyser that
    paints the straight line between two cells of a canvas. The game uses it
    with brush `false` to clear the fog along the path of a move.

    Cell `i` of the line, for `i` in `0..=steps`, is
    `(round(sx + i*dx/steps), round(sy + i*dy/steps))`. Every coordinate on
    the way is non-negative, where Rust's `f64::round` is `floor(v + 1/2)`;
    the model computes this exactly, without floating-point error. */
module Raster {
  import opened World

  /** A line from the start cell `(sx, sy)` to the end cell `(ex, ey)`. */
  datatype Line = Line(sx: nat, sy: nat, ex: nat, ey: nat)

  function Abs(n: int): nat
  {
    if n < 0 then -n else n
  }

  /** `steps = max(|dx|, |dy|)`, with `|dy|` on a tie. */
  function Steps(l: Line): (n: nat)
    ensures n >= Abs(l.ex - l.sx) && n >= Abs(l.ey - l.sy)
    ensures n == Abs(l.ex - l.sx) || n == Abs(l.ey - l.sy)
  {
    var dx := Abs(l.ex - l.sx);
    var dy := Abs(l.ey - l.sy);
    if dx > dy then dx else dy
  }

  /** `floor(num / den + 1/2)`, in integers. */
  function RoundHalfUp(num: int, den: int): int
    requires den > 0
  {
    (2 * num + den) / (2 * den)
  }

  // ---------------------------------------------------------------------
  // Integer division facts the rounding proofs rest on.

  lemma MulLeq(a: int, b: int, d: int)
    requires a <= b && d >= 0
    ensures a * d <= b * d
  {
    assert b * d - a * d == (b - a) * d;
  }

  lemma DivAtLeast(a: int, d: int, lo: int)
    requires d > 0 && lo * d <= a
    ensures lo <= a / d
  {
    var q := a / d;
    if q < lo {
      assert (q + 1) * d == q * d + d;
      MulLeq(q + 1, lo, d);
    }
  }

  lemma DivBelow(a: int, d: int, hi: int)
    requires d > 0 && a < hi * d
    ensures a / d < hi
  {
    var q := a / d;
    if q >= hi {
      MulLeq(hi, q, d);
    }
  }

  // ---------------------------------------------------------------------
  // Rounding.

  /** Rounding a whole multiple of the denominator gives the factor back. */
  lemma RoundOfMultiple(k: int, n: int)
    requires n > 0
    ensures RoundHalfUp(k * n, n) == k
  {
    assert 2 * (k * n) + n == k * (2 * n) + n;
    assert (k + 1) * (2 * n) == k * (2 * n) + 2 * n;
    DivAtLeast(2 * (k * n) + n, 2 * n, k);
    DivBelow(2 * (k * n) + n, 2 * n, k + 1);
  }

  lemma RoundMonotone(a: int, b: int, n: int)
    requires n > 0 && a <= b
    ensures RoundHalfUp(a, n) <= RoundHalfUp(b, n)
  {
    var q := RoundHalfUp(a, n);
    assert q * (2 * n) <= 2 * a + n;
    DivAtLeast(2 * b + n, 2 * n, q);
  }

  /** Moving the numerator by at most one denominator moves the rounded
      value by at most one. */
  lemma RoundShift(a: int, k: int, n: int)
    requires n > 0 && -n <= k <= n
    ensures -1 <= RoundHalfUp(a + k, n) - RoundHalfUp(a, n) <= 1
  {
    var q := RoundHalfUp(a, n);
    var r := (2 * a + n) % (2 * n);
    assert 2 * a + n == q * (2 * n) + r;
    assert 2 * (a + k) + n == q * (2 * n) + r + 2 * k;
    assert (q - 1) * (2 * n) == q * (2 * n) - 2 * n;
    assert (q + 2) * (2 * n) == q * (2 * n) + 4 * n;
    DivAtLeast(2 * (a + k) + n, 2 * n, q - 1);
    DivBelow(2 * (a + k) + n, 2 * n, q + 2);
  }

  lemma RealDivBounds(n: real, d: real, lo: real, hi: real)
    requires d > 0.0 && lo * d <= n < hi * d
    ensures lo <= n / d < hi
  {
  }

  lemma FloorIs(w: real, q: int)
    requires q as real <= w < q as real + 1.0
    ensures w.Floor == q
  {
  }

  lemma RealDivUnique(n: real, d: real, w: real)
    requires d > 0.0 && w * d == n
    ensures n / d == w
  {
  }

  /** The integer rounding agrees with rounding the exact real quotient
      half up, which is what `f64::round` does on a non-negative value. */
  lemma RoundHalfUpIsRealRound(num: int, den: int)
    requires den > 0
    ensures RoundHalfUp(num, den) == (num as real / den as real + 0.5).Floor
  {
    var q := RoundHalfUp(num, den);
    var n, d := 2 * num + den, 2 * den;
    DivBelow(n, d, q + 1);
    assert q * d <= n < (q + 1) * d;
    var nr, dr, qr := n as real, d as real, q as real;
    assert qr * dr <= nr < (qr + 1.0) * dr;
    RealDivBounds(nr, dr, qr, qr + 1.0);
    var v := num as real / den as real;
    RealDivUnique(num as real, den as real, v);
    assert (v + 0.5) * dr == nr;
    RealDivUnique(nr, dr, v + 0.5);
    FloorIs(v + 0.5, q);
  }

  // ---------------------------------------------------------------------
  // The cells of a line.

  /** The coordinate, on one axis, of cell `i` of a line that goes from
      `s` to `e` in `steps` steps: `round(s + i * (e - s) / steps)`. The
      cell never leaves the segment between `s` and `e`. */
  function AxisAt(s: nat, e: nat, steps: nat, i: nat): (r: nat)
    requires i <= steps
    ensures s <= e ==> s <= r <= e
    ensures e <= s ==> e <= r <= s
  {
    if steps == 0 then s
    else
      AxisBetween(s, e, steps, i);
      RoundHalfUp(s * steps + i * (e - s), steps)
  }

  lemma AxisBetween(s: nat, e: nat, n: nat, i: nat)
    requires 0 < n && i <= n
    ensures s <= e ==> s <= RoundHalfUp(s * n + i * (e - s), n) <= e
    ensures e <= s ==> e <= RoundHalfUp(s * n + i * (e - s), n) <= s
  {
    var num := s * n + i * (e - s);
    RoundOfMultiple(s, n);
    RoundOfMultiple(e, n);
    assert s * n + n * (e - s) == e * n;
    if s <= e {
      MulLeq(0, i, e - s);
      MulLeq(i, n, e - s);
      RoundMonotone(s * n, num, n);
      RoundMonotone(num, e * n, n);
    } else {
      MulLeq(0, i, s - e);
      MulLeq(i, n, s - e);
      assert i * (e - s) == -(i * (s - e));
      assert n * (e - s) == -(n * (s - e));
      RoundMonotone(num, s * n, n);
      RoundMonotone(e * n, num, n);
    }
  }

  /** Cell `i` of line `l`, for `0 <= i <= Steps(l)`. */
  function CellAt(l: Line, i: nat): (c: Coordinate)
    requires i <= Steps(l)
    ensures l.sx <= l.ex ==> l.sx <= c.x <= l.ex
    ensures l.ex <= l.sx ==> l.ex <= c.x <= l.sx
    ensures l.sy <= l.ey ==> l.sy <= c.y <= l.ey
    ensures l.ey <= l.sy ==> l.ey <= c.y <= l.sy
  {
    Coordinate(AxisAt(l.sx, l.ex, Steps(l), i), AxisAt(l.sy, l.ey, Steps(l), i))
  }

  /** Cell `(x, y)` is among the first `k` cells of line `l`. */
  ghost predicate Visited(l: Line, k: nat, x: int, y: int)
  {
    exists i :: 0 <= i < k && i <= Steps(l) && CellAt(l, i).x == x && CellAt(l, i).y == y
  }

  lemma VisitedNext(l: Line, k: nat, x: int, y: int)
    requires k <= Steps(l)
    ensures Visited(l, k + 1, x, y) <==>
      Visited(l, k, x, y) || (CellAt(l, k).x == x && CellAt(l, k).y == y)
  {
  }

  /** Cell `(x, y)` is one of the cells `draw_line` paints for `l`. */
  ghost predicate OnLine(l: Line, x: int, y: int)
  {
    Visited(l, Steps(l) + 1, x, y)
  }

  lemma {:induction false} AxisAtStart(s: nat, e: nat, n: nat)
    ensures AxisAt(s, e, n, 0) == s
  {
    if n > 0 {
      assert s * n + 0 * (e - s) == s * n;
      RoundOfMultiple(s, n);
    }
  }

  lemma {:induction false} AxisAtEnd(s: nat, e: nat, n: nat)
    requires Abs(e - s) <= n
    requires n == 0 ==> s == e
    ensures AxisAt(s, e, n, n) == e
  {
    if n > 0 {
      assert s * n + n * (e - s) == e * n;
      RoundOfMultiple(e, n);
    }
  }

  /** The first cell painted is the start cell and the last one the end
      cell. */
  lemma CellAtEnds(l: Line)
    ensures CellAt(l, 0) == Coordinate(l.sx, l.sy)
    ensures CellAt(l, Steps(l)) == Coordinate(l.ex, l.ey)
  {
    AxisAtStart(l.sx, l.ex, Steps(l));
    AxisAtStart(l.sy, l.ey, Steps(l));
    AxisAtEnd(l.sx, l.ex, Steps(l));
    AxisAtEnd(l.sy, l.ey, Steps(l));
  }

  /** Both end points of a line are painted. */
  lemma EndsOnLine(l: Line)
    ensures OnLine(l, l.sx, l.sy)
    ensures OnLine(l, l.ex, l.ey)
  {
    CellAtEnds(l);
    assert CellAt(l, 0).x == l.sx && CellAt(l, 0).y == l.sy;
    assert CellAt(l, Steps(l)).x == l.ex && CellAt(l, Steps(l)).y == l.ey;
  }

  /** A line whose start is its end paints that one cell and no other. */
  lemma PointLine(l: Line)
    requires l.sx == l.ex && l.sy == l.ey
    ensures forall x: int, y: int :: OnLine(l, x, y) <==> x == l.sx && y == l.sy
  {
    assert Steps(l) == 0;
    CellAtEnds(l);
  }

  lemma {:induction false} AxisStep(s: nat, e: nat, n: nat, i: nat)
    requires i < n && Abs(e - s) <= n
    ensures -1 <= AxisAt(s, e, n, i + 1) - AxisAt(s, e, n, i) <= 1
  {
    assert s * n + (i + 1) * (e - s) == (s * n + i * (e - s)) + (e - s);
    RoundShift(s * n + i * (e - s), e - s, n);
  }

  /** Consecutive cells of a line touch, by a side or a corner: the
      revealed path is 8-connected. */
  lemma CellsAdjacent(l: Line, i: nat)
    requires i < Steps(l)
    ensures Abs(CellAt(l, i + 1).x - CellAt(l, i).x) <= 1
    ensures Abs(CellAt(l, i + 1).y - CellAt(l, i).y) <= 1
  {
    AxisStep(l.sx, l.ex, Steps(l), i);
    AxisStep(l.sy, l.ey, Steps(l), i);
  }

  lemma {:induction false} MajorAxisAt(s: nat, e: nat, n: nat, i: nat)
    requires i <= n && Abs(e - s) == n
    ensures AxisAt(s, e, n, i) == if s <= e then s + i else s - i
  {
    if n > 0 {
      if s <= e {
        assert s * n + i * (e - s) == (s + i) * n;
        RoundOfMultiple(s + i, n);
      } else {
        assert s * n + i * (e - s) == (s - i) * n;
        RoundOfMultiple(s - i, n);
      }
    }
  }

  /** Along the longer axis every step moves exactly one cell, so the
      `Steps(l) + 1` cells of a line are pairwise different. */
  lemma CellsDistinct(l: Line, i: nat, j: nat)
    requires i < j <= Steps(l)
    ensures CellAt(l, i) != CellAt(l, j)
  {
    if Abs(l.ex - l.sx) == Steps(l) {
      MajorAxisAt(l.sx, l.ex, Steps(l), i);
      MajorAxisAt(l.sx, l.ex, Steps(l), j);
    } else {
      MajorAxisAt(l.sy, l.ey, Steps(l), i);
      MajorAxisAt(l.sy, l.ey, Steps(l), j);
    }
  }

  /** The position after `i` steps of `step` from `start`. */
  function Accumulated(start: nat, i: nat, step: real): real
  {
    start as real + i as real * step
  }

  /** Rust's `f64::round` on a non-negative value. */
  function Round(v: real): int
  {
    (v + 0.5).Floor
  }

  lemma Advance(start: nat, i: nat, step: real)
    ensures Accumulated(start, i, step) + step == Accumulated(start, i + 1, step)
  {
  }

  /** The loop of `draw_line` keeps `x = sx + i * xStep` as it goes;
      rounding that value gives the model's cell coordinate. When
      `steps` is 0 the step is never used (Rust computes 0/0 there). */
  lemma RoundedAccumulator(s: nat, e: nat, n: nat, i: nat, step: real)
    requires i <= n
    requires n > 0 ==> step == (e - s) as real / n as real
    ensures Round(Accumulated(s, i, step)) == AxisAt(s, e, n, i)
  {
    if n == 0 {
      assert i == 0;
    } else {
      var num := s * n + i * (e - s);
      RoundHalfUpIsRealRound(num, n);
      assert step * n as real == (e - s) as real;
      assert num as real == (s as real + i as real * step) * n as real;
      assert num as real / n as real == s as real + i as real * step;
    }
  }

  // ---------------------------------------------------------------------
  // The canvas.

  /** The canvas as rows of cells, `canvas[y][x]` as in the source. */
  ghost function Snapshot<T>(a: array2<T>): seq<seq<T>>
    reads a
  {
    seq(a.Length0, y requires 0 <= y < a.Length0 reads a =>
      seq(a.Length1, x requires 0 <= x < a.Length1 reads a => a[y, x]))
  }

  /** The canvas `g` after painting line `l` with `brush`: exactly the cells
      on the line take the brush, every other cell keeps its value. */
  ghost function Paint<T>(g: seq<seq<T>>, l: Line, brush: T): (r: seq<seq<T>>)
    ensures |r| == |g| && forall y :: 0 <= y < |g| ==> |r[y]| == |g[y]|
    ensures forall y, x :: 0 <= y < |g| && 0 <= x < |g[y]| ==>
      r[y][x] == if OnLine(l, x, y) then brush else g[y][x]
  {
    seq(|g|, y requires 0 <= y < |g| =>
      seq(|g[y]|, x requires 0 <= x < |g[y]| => if OnLine(l, x, y) then brush else g[y][x]))
  }

  /** Painting the same line twice leaves the canvas as painting it once. */
  lemma PaintIdempotent<T>(g: seq<seq<T>>, l: Line, brush: T)
    ensures Paint(Paint(g, l, brush), l, brush) == Paint(g, l, brush)
  {
    var once := Paint(g, l, brush);
    var twice := Paint(once, l, brush);
    assert |twice| == |once|;
    forall y | 0 <= y < |once|
      ensures twice[y] == once[y]
    {
      assert |twice[y]| == |once[y]|;
    }
  }

  /** `draw_line`: paints the cells of the line from `(startX, startY)` to
      `(endX, endY)` with `brush`, indexing the canvas as `canvas[y, x]`.
      The positions accumulate `xStep`/`yStep` exactly as reals. */
  method DrawLine<T>(canvas: array2<T>, startX: nat, startY: nat, endX: nat, endY: nat, brush: T)
    requires startX < canvas.Length1 && endX < canvas.Length1
    requires startY < canvas.Length0 && endY < canvas.Length0
    modifies canvas
    ensures Snapshot(canvas) == Paint(old(Snapshot(canvas)), Line(startX, startY, endX, endY), brush)
  {
    ghost var before := Snapshot(canvas);
    ghost var l := Line(startX, startY, endX, endY);
    var dx := endX - startX;
    var dy := endY - startY;
    var steps := if Abs(dx) > Abs(dy) then Abs(dx) else Abs(dy);
    assert steps == Steps(l);
    var xStep, yStep := 0.0, 0.0;
    if steps != 0 {
      xStep := dx as real / steps as real;
      yStep := dy as real / steps as real;
    }
    var x, y := startX as real, startY as real;
    var i := 0;
    while i <= steps
      invariant 0 <= i <= steps + 1
      invariant x == Accumulated(startX, i, xStep)
      invariant y == Accumulated(startY, i, yStep)
      invariant forall r, c :: 0 <= r < canvas.Length0 && 0 <= c < canvas.Length1 ==>
        canvas[r, c] == if Visited(l, i, c, r) then brush else before[r][c]
    {
      RoundedAccumulator(startX, endX, steps, i, xStep);
      RoundedAccumulator(startY, endY, steps, i, yStep);
      var col := Round(x);
      var row := Round(y);
      assert col == CellAt(l, i).x && row == CellAt(l, i).y;
      canvas[row, col] := brush;
      forall r, c | 0 <= r < canvas.Length0 && 0 <= c < canvas.Length1
        ensures Visited(l, i + 1, c, r) <==> Visited(l, i, c, r) || (c == col && r == row)
      {
        VisitedNext(l, i, c, r);
      }
      Advance(startX, i, xStep);
      Advance(startY, i, yStep);
      x := x + xStep;
      y := y + yStep;
      i := i + 1;
    }
    forall r | 0 <= r < canvas.Length0
      ensures Snapshot(canvas)[r] == Paint(before, l, brush)[r]
    {
      assert |Snapshot(canvas)[r]| == |Paint(before, l, brush)[r]|;
    }
  }
}
