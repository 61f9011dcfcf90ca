/**
 The edge stepper of gl/CDDA.h and gl/CDDA.cpp: for every scanline it yields
 the first pixel whose centre lies strictly to the right of an edge, using
 only additions.  Coordinates have four fractional bits; pixel p has its
 centre at 16 * p + 8.
 */
module EdgeWalker {
  import opened Arithmetic

  const PIXEL: int := 16            // 1 << SHIFT_XY
  const CENTER: int := 8            // fxPixelCenterOffset
  const FLOOR_OFFSET: int := 7      // fxPixelFloorOffset

  datatype Edge = Edge(x1: int, y1: int, x2: int, y2: int)

  /** Edges run downwards. */
  type Down = e: Edge | e.y1 < e.y2 witness Edge(0, 0, 0, 1)

  function Dx(e: Edge): int { e.x2 - e.x1 }

  function Dy(e: Down): (d: int)
    ensures d > 0
  {
    e.y2 - e.y1
  }

  /** The first scanline whose pixel centres are at or below y1. */
  function FirstLine(e: Edge): int { (e.y1 + FLOOR_OFFSET) / PIXEL }

  function CenterY(line: int): int { PIXEL * line + CENTER }

  lemma FirstLineIsFirst(e: Edge, line: int)
    ensures 16 * line + 8 >= e.y1 <==> line >= FirstLine(e)
  {
  }

  /** Dy times the x coordinate of the exact edge at the centre of a line. */
  function ExactX(e: Down, line: int): int {
    Dy(e) * e.x1 + Dx(e) * (CenterY(line) - e.y1)
  }

  /** The pixel column the stepper yields for a line. */
  function Column(e: Down, line: int): int {
    (ExactX(e, line) + Dy(e) * CENTER) / (Dy(e) * PIXEL)
  }

  /** Is the centre of pixel p strictly to the right of the line through the two
      ends of the edge?  The cross product tells. */
  ghost predicate RightOf(e: Down, line: int, p: int) {
    (16 * p + 8 - e.x1) * (e.y2 - e.y1) > (e.x2 - e.x1) * (16 * line + 8 - e.y1)
  }

  /** The column is the least pixel to the right of the edge. */
  lemma ColumnIsLeast(e: Down, line: int, p: int)
    ensures RightOf(e, line, p) <==> p >= Column(e, line)
  {
    var d := Dy(e) * PIXEL;
    var n := ExactX(e, line) + Dy(e) * CENTER;
    var q := Column(e, line);
    assert n == q * d + n % d;
    assert (PIXEL * p + CENTER - e.x1) * Dy(e) == p * d + Dy(e) * CENTER - Dy(e) * e.x1;
    MulAtLeast(p - q, d);
    assert (p - q) * d == p * d - q * d;
  }

  lemma ExactStep(e: Down, line: int)
    ensures ExactX(e, line + 1) == ExactX(e, line) + Dx(e) * PIXEL
  {
    assert CenterY(line + 1) - e.y1 == CenterY(line) - e.y1 + PIXEL;
  }

  class CDDA {
    var x: int
    var dxdy: int
    var dxdyMod: int
    var dxdyDen: int
    var dxdyErr: int
    ghost var edge: Down
    ghost var line: int

    /** x and the error are quotient and remainder of the exact position. */
    ghost predicate Valid()
      reads this
    {
      && dxdyDen == Dy(edge) * PIXEL
      && dxdy * dxdyDen + dxdyMod == Dx(edge) * PIXEL && 0 <= dxdyMod < dxdyDen
      && x * dxdyDen + dxdyErr == ExactX(edge, line) + Dy(edge) * CENTER && 0 <= dxdyErr < dxdyDen
    }

    constructor ()
      ensures x == 0
    {
      x, dxdy, dxdyMod, dxdyDen, dxdyErr := 0, 0, 0, 0, 0;
      edge, line := Edge(0, 0, 0, 1), 0;
    }

    /** init: positions the stepper on the first line of the edge. */
    method Init(x1: int, y1: int, x2: int, y2: int)
      requires y1 < y2
      modifies this
      ensures Valid() && edge == Edge(x1, y1, x2, y2) && line == FirstLine(edge)
      ensures x == Column(edge, line)
    {
      var deltaX := x2 - x1;
      var deltaY := y2 - y1;
      var initial := 0;
      initial := initial + deltaY * x1;
      initial := initial + deltaX * ((y1 + FLOOR_OFFSET) / PIXEL * PIXEL + CENTER - y1);
      initial := initial + deltaY * CENTER;
      edge := Edge(x1, y1, x2, y2);
      line := FirstLine(edge);
      x, dxdyErr := FloorDivMod(initial, deltaY * PIXEL);
      dxdy, dxdyMod := FloorDivMod(deltaX * PIXEL, deltaY * PIXEL);
      dxdyDen := deltaY * PIXEL;
    }

    /** advance: the next line.  The result says whether the error carried. */
    method Advance() returns (carry: bool)
      requires Valid()
      modifies this
      ensures Valid() && edge == old(edge) && line == old(line) + 1
      ensures x == Column(edge, line)
      ensures x - old(x) == Dx(edge) * PIXEL / (Dy(edge) * PIXEL) + (if carry then 1 else 0)
    {
      ExactStep(edge, line);
      DivModUnique(Dx(edge) * PIXEL, dxdyDen, dxdy, dxdyMod);
      x := x + dxdy;
      dxdyErr := dxdyErr + dxdyMod;
      carry := false;
      line := line + 1;
      if dxdyErr >= dxdyDen {
        dxdyErr := dxdyErr - dxdyDen;
        x := x + 1;
        carry := true;
      }
      assert x * dxdyDen + dxdyErr == ExactX(edge, line) + Dy(edge) * CENTER by {
        Distribute(old(x), dxdy, if carry then 1 else 0, dxdyDen);
      }
      DivModUnique(ExactX(edge, line) + Dy(edge) * CENTER, dxdyDen, x, dxdyErr);
    }
  }

  lemma Distribute(a: int, b: int, c: int, d: int)
    ensures (a + b + c) * d == a * d + b * d + c * d
  {
  }

  /** A run of the stepper: k advances after init. */
  method Walk(e: Down, k: nat) returns (columns: seq<int>)
    ensures |columns| == k + 1
    ensures forall i | 0 <= i <= k :: columns[i] == Column(e, FirstLine(e) + i)
  {
    var dda := new CDDA();
    dda.Init(e.x1, e.y1, e.x2, e.y2);
    columns := [dda.x];
    for i := 0 to k
      invariant dda.Valid() && dda.edge == e && dda.line == FirstLine(e) + i && |columns| == i + 1
      invariant forall j | 0 <= j <= i :: columns[j] == Column(e, FirstLine(e) + j)
    {
      var carry := dda.Advance();
      columns := columns + [dda.x];
    }
  }

  // ---------------------------------------------------------------------
  // Several edges
  // ---------------------------------------------------------------------

  /** f starts at another point of the line through e. */
  ghost predicate SameLine(e: Down, f: Down) {
    Dx(f) * Dy(e) == Dx(e) * Dy(f) && (f.x1 - e.x1) * Dy(e) == Dx(e) * (f.y1 - e.y1)
  }

  /** Restarting anywhere on the edge yields the same columns. */
  lemma RestartSameColumns(e: Down, f: Down, line: int)
    requires SameLine(e, f)
    ensures Column(f, line) == Column(e, line)
  {
    SameExact(e, f, line);
    var n, d := ExactX(e, line) + Dy(e) * CENTER, Dy(e) * PIXEL;
    var m, g := ExactX(f, line) + Dy(f) * CENTER, Dy(f) * PIXEL;
    assert n * g == m * d by {
      CrossScaled(ExactX(e, line), Dy(e), ExactX(f, line), Dy(f));
    }
    DivCrossMonotone(n, d, m, g);
    DivCrossMonotone(m, g, n, d);
  }

  lemma SameExact(e: Down, f: Down, line: int)
    requires SameLine(e, f)
    ensures ExactX(f, line) * Dy(e) == ExactX(e, line) * Dy(f)
  {
    var y := CenterY(line);
    var dx, dy, gx, gy := Dx(e), Dy(e), Dx(f), Dy(f);
    assert gy * f.x1 * dy == gy * (f.x1 - e.x1) * dy + gy * e.x1 * dy;
    assert gy * (f.x1 - e.x1) * dy == gy * (dx * (f.y1 - e.y1)) by { assert (f.x1 - e.x1) * dy == dx * (f.y1 - e.y1); }
    assert gx * (y - f.y1) * dy == (gx * dy) * (y - f.y1);
    assert (dx * gy) * (y - f.y1) + gy * (dx * (f.y1 - e.y1)) == (dx * gy) * (y - e.y1);
  }

  lemma CrossScaled(a: int, d: int, b: int, e: int)
    requires a * e == b * d
    ensures (a + d * CENTER) * (e * PIXEL) == (b + e * CENTER) * (d * PIXEL)
  {
  }

  /** Two edges from a common top vertex with ordered slopes stay ordered on
      every line from the first on. */
  lemma EdgesStayOrdered(e: Down, f: Down, line: int)
    requires e.x1 == f.x1 && e.y1 == f.y1
    requires Dx(e) * Dy(f) <= Dx(f) * Dy(e)
    requires line >= FirstLine(e)
    ensures Column(e, line) <= Column(f, line)
  {
    FirstLineIsFirst(e, line);
    var h := CenterY(line) - e.y1;
    var dx, dy, gx, gy := Dx(e), Dy(e), Dx(f), Dy(f);
    MulNonNegative(gx * dy - dx * gy, h);
    OrderedExact(e.x1, dx, dy, gx, gy, h);
    DivCrossMonotone(dy * e.x1 + dx * h + dy * CENTER, dy * PIXEL, gy * e.x1 + gx * h + gy * CENTER, gy * PIXEL);
  }

  lemma OrderedExact(x: int, dx: int, dy: int, gx: int, gy: int, h: int)
    requires (gx * dy - dx * gy) * h >= 0
    ensures (dy * x + dx * h + dy * CENTER) * (gy * PIXEL) <= (gy * x + gx * h + gy * CENTER) * (dy * PIXEL)
  {
    assert (gy * x + gx * h + gy * CENTER) * (dy * PIXEL) - (dy * x + dx * h + dy * CENTER) * (gy * PIXEL)
        == PIXEL * ((gx * dy - dx * gy) * h);
  }

  // ---------------------------------------------------------------------
  // 32-bit range
  // ---------------------------------------------------------------------

  predicate Fits(n: int) { -0x8000_0000 <= n < 0x8000_0000 }

  predicate Bounded(e: Edge, b: int) { -b <= e.x1 <= b && -b <= e.y1 <= b && -b <= e.x2 <= b && -b <= e.y2 <= b }

  /** No sum or product that init forms leaves the signed 32-bit range, the
      negated numerators and the error before its carry included. */
  predicate InitFits(e: Down) {
    var down := CenterY(FirstLine(e)) - e.y1;
    && Fits(e.y1 + FLOOR_OFFSET) && Fits(Dx(e)) && Fits(Dy(e))
    && Fits(Dy(e) * e.x1) && Fits(Dx(e) * down) && Fits(Dy(e) * CENTER)
    && Fits(Dy(e) * e.x1 + Dx(e) * down)
    && Fits(ExactX(e, FirstLine(e)) + Dy(e) * CENTER) && Fits(-(ExactX(e, FirstLine(e)) + Dy(e) * CENTER))
    && Fits(Dx(e) * PIXEL) && Fits(-(Dx(e) * PIXEL)) && Fits(2 * (Dy(e) * PIXEL))
  }

  /** The sharp bound: init is safe for all coordinates of size at most b
      exactly if b is at most 32764, that is 2047.75 pixels from the origin. */
  lemma InitFitsIff(b: nat)
    requires b >= 1
    ensures (forall e: Down | Bounded(e, b) :: InitFits(e)) <==> b <= 32764
  {
    if b <= 32764 {
      forall e: Down | Bounded(e, b) ensures InitFits(e) { BoundedFits(e); }
    } else {
      assert Bounded(Edge(32765, -32765, 32765, 32765), b);
    }
  }

  lemma BoundedFits(e: Down)
    requires Bounded(e, 32764)
    ensures InitFits(e)
  {
    var down := CenterY(FirstLine(e)) - e.y1;
    FirstLineIsFirst(e, FirstLine(e));
    FirstLineIsFirst(e, FirstLine(e) - 1);
    assert 0 <= down < PIXEL;
    var x, dx, dy, m := e.x1, Dx(e), Dy(e), 32764;
    ProductFits(dy, x, 2 * m, m);
    ProductFits(dx, down, 2 * m, 15);
    UpperSum(x, dx, dy, down);
    LowerSum(x, dx, dy, down);
  }

  /** A large x1 leaves no room to the right of it. */
  lemma UpperSum(x: int, dx: int, dy: int, down: int)
    requires -32764 <= x <= 32764 && x + dx <= 32764 && 0 < dy <= 65528 && 0 <= down < 16
    ensures dy * x + dx * down + dy * CENTER <= 0x7FFF_FFE0
    ensures dy * x + dx * down <= 0x7FFF_FFE0
  {
    var y := 32764 - x;
    assert dx * down <= y * down by {
      MulNonNegative(y - dx, down);
      assert (y - dx) * down == y * down - dx * down;
    }
    if dy >= down {
      MulNonNegative(dy - down, y);
      assert (dy - down) * y == dy * 32764 - dy * x - y * down;
    } else {
      ProductFits(dy, x, 16, 32764);
      ProductFits(y, down, 65528, 15);
    }
  }

  lemma LowerSum(x: int, dx: int, dy: int, down: int)
    requires -32764 <= x <= 32764 && x + dx >= -32764 && 0 < dy <= 65528 && 0 <= down < 16
    ensures dy * x + dx * down >= -0x7FFF_FFFF
  {
    UpperSum(-x, -dx, dy, down);
    assert dy * -x == -(dy * x) && -dx * down == -(dx * down);
  }

  lemma ProductFits(a: int, b: int, m: int, n: int)
    requires -m <= a <= m && -n <= b <= n
    ensures -(m * n) <= a * b <= m * n
  {
    MulNonNegative(m - a, n + b);
    MulNonNegative(m + a, n - b);
    MulNonNegative(m - a, n - b);
    MulNonNegative(m + a, n + b);
    assert (m - a) * (n + b) + (m + a) * (n - b) == 2 * (m * n) - 2 * (a * b);
    assert (m - a) * (n - b) + (m + a) * (n + b) == 2 * (m * n) + 2 * (a * b);
  }
}
