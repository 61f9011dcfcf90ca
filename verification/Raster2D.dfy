/**
 C2DRenderer of kernel/kernel/2dRenderer.cpp: the clip rectangle, clipped
 rectangles, and lines drawn with an error-term stepper, on a framebuffer whose
 rows are xpitch cells apart.  Each drawing method says exactly which cells it
 changes.
 */
module Raster2D {
  import opened Arithmetic
  import opened Common

  // ---------------------------------------------------------------------
  // The ideal line
  // ---------------------------------------------------------------------

  /** Minor offset of pixel k of a line: k * minor / major, to the nearest. */
  function Minor(k: int, minor: int, major: int): int
    requires major > 0
  {
    (k * minor + major / 2) / major
  }

  /** Pixels are within half a pixel of the ideal line. */
  lemma MinorWithinHalf(k: int, minor: int, major: int)
    requires major > 0
    ensures -major <= 2 * (k * minor - Minor(k, minor, major) * major) <= major
  {
    var n := k * minor + major / 2;
    assert n == (n / major) * major + n % major;
  }

  /** Both endpoints are hit. */
  lemma MinorEnds(minor: int, major: int)
    requires major > 0
    ensures Minor(0, minor, major) == 0 && Minor(major, minor, major) == minor
  {
    DivModUnique(major / 2, major, 0, major / 2);
    DivModUnique(major * minor + major / 2, major, minor, major / 2);
  }

  /** Successive pixels are 8-connected. */
  lemma MinorConnected(k: int, minor: int, major: int)
    requires major > 0 && -major <= minor <= major
    ensures -1 <= Minor(k + 1, minor, major) - Minor(k, minor, major) <= 1
  {
    var n := k * minor + major / 2;
    assert (k + 1) * minor + major / 2 == n + minor;
    DivMonotone(n - major, n + minor, major);
    DivMonotone(n + minor, n + major, major);
    DivModShift(n, 1, major);
    DivModShift(n, -1, major);
  }

  /** All pixels stay between the endpoints. */
  lemma MinorBetween(k: int, minor: int, major: int)
    requires major > 0 && 0 <= k <= major
    ensures if minor >= 0 then 0 <= Minor(k, minor, major) <= minor else minor <= Minor(k, minor, major) <= 0
  {
    MinorEnds(minor, major);
    if minor >= 0 {
      MulNonNegative(k, minor);
      MulNonNegative(major - k, minor);
      assert (major - k) * minor == major * minor - k * minor;
      DivMonotone(major / 2, k * minor + major / 2, major);
      DivMonotone(k * minor + major / 2, major * minor + major / 2, major);
    } else {
      MulNonNegative(k, -minor);
      MulNonNegative(major - k, -minor);
      assert (major - k) * -minor == k * minor - major * minor;
      assert k * -minor == -(k * minor);
      DivMonotone(k * minor + major / 2, major / 2, major);
      DivMonotone(major * minor + major / 2, k * minor + major / 2, major);
    }
  }

  /** The pixels of a line that runs forwards along its longer axis: one for
      every step of that axis, between the endpoints, which are pixels
      themselves, and within half a pixel of the ideal line. */
  lemma OnLineMeans(x1: int, y1: int, x2: int, y2: int, x: int, y: int)
    requires x1 < x2 && -(x2 - x1) <= y2 - y1 <= x2 - x1
    ensures OnLine(x1, y1, x2, y2, x1, y1) && OnLine(x1, y1, x2, y2, x2, y2)
    ensures OnLine(x1, y1, x2, y2, x, y) ==>
              && x1 <= x <= x2 && Min(y1, y2) <= y <= Max(y1, y2)
              && -(x2 - x1) <= 2 * ((x - x1) * (y2 - y1) - (y - y1) * (x2 - x1)) <= x2 - x1
    ensures x1 <= x <= x2 ==> exists z :: OnLine(x1, y1, x2, y2, x, z)
    ensures forall z | OnLine(x1, y1, x2, y2, x, y) && OnLine(x1, y1, x2, y2, x, z) :: y == z
  {
    var major, minor := x2 - x1, y2 - y1;
    MinorEnds(minor, major);
    MinorWithinHalf(x - x1, minor, major);
    if x1 <= x <= x2 { MinorBetween(x - x1, minor, major); }
    if minor == 0 { MinorFlat(x - x1, major); }
    hide Minor;
    assert x1 <= x <= x2 ==> OnLine(x1, y1, x2, y2, x, y1 + Minor(x - x1, minor, major));
  }

  lemma MinorFlat(k: int, major: int)
    requires major > 0
    ensures Minor(k, 0, major) == 0
  {
    ModSmall(major / 2, major);
  }

  /** The same with the axes exchanged. */
  lemma OnLineTurned(x1: int, y1: int, x2: int, y2: int, x: int, y: int)
    requires Abs(x2 - x1) < y2 - y1
    ensures OnLine(x1, y1, x2, y2, x, y) <==> OnLine(y1, x1, y2, x2, y, x)
  {
    if x1 == x2 { MinorFlat(y - y1, y2 - y1); }
  }

  // ---------------------------------------------------------------------
  // The stepper
  // ---------------------------------------------------------------------

  /** The local CDDA class. */
  class LineDda {
    var num: int
    var den: int
    var quot: int
    var modulo: int
    var error: int
    var current: int
    ghost var start: int
    ghost var steps: nat

    /** current and error are quotient and remainder of the exact position. */
    ghost predicate Valid()
      reads this
    {
      && den > 0 && quot * den + modulo == num && 0 <= modulo < den
      && (current - start) * den + error == steps * num + den / 2 && 0 <= error < den
    }

    constructor (n: int, d: int, c: int)
      requires d != 0
      ensures num == n && den == d && current == c && start == c && steps == 0
      ensures d > 0 ==> Valid()
    {
      num, den := n, d;
      var q, m := FloorDivMod(n, d);
      quot, modulo := q, m;
      error := d / 2;
      current := c;
      start, steps := c, 0;
    }

    method Increment()
      requires Valid()
      modifies this
      ensures Valid() && num == old(num) && den == old(den) && start == old(start) && steps == old(steps) + 1
    {
      Steps(steps, num, current - start, quot, den);
      current := current + quot;
      error := error + modulo;
      if error >= den {
        error := error - den;
        current := current + 1;
      }
      steps := steps + 1;
    }

    lemma CurrentIsMinor()
      requires Valid()
      ensures current == start + Minor(steps, num, den)
    {
      DivModUnique(steps * num + den / 2, den, current - start, error);
    }
  }

  lemma Steps(k: nat, n: int, c: int, q: int, d: int)
    ensures (k + 1) * n == k * n + n
    ensures (c + q) * d == c * d + q * d && (c + q + 1) * d == c * d + q * d + d
  {
  }

  // ---------------------------------------------------------------------
  // Framebuffer geometry
  // ---------------------------------------------------------------------

  datatype Rect = Rect(xmin: int, ymin: int, xmax: int, ymax: int)

  predicate Within(r: Rect, x: int, y: int) { r.xmin <= x <= r.xmax && r.ymin <= y <= r.ymax }

  /** The cells of a row-major framebuffer are the pairs of column and row. */
  lemma CellOf(x: int, y: int, pitch: int)
    requires 0 <= x < pitch
    ensures (y * pitch + x) % pitch == x && (y * pitch + x) / pitch == y
  {
    DivModUnique(y * pitch + x, pitch, y, x);
  }

  /** What a cell of the given depth holds after storing a colour in it; other
      depths are not drawn to. */
  function Stored(bpp: nat, colour: nat, was: int): int {
    match bpp
    case 8 => colour % 0x100
    case 16 => colour % 0x1_0000
    case 32 => colour % 0x1_0000_0000
    case _ => was
  }

  predicate DrawnDepth(bpp: nat) { bpp == 8 || bpp == 16 || bpp == 32 }

  /** The cell shows the colour in as many bits as the depth has: it is the
      colour itself if it fits. */
  ghost predicate ShowsColour(bpp: nat, colour: nat, cell: int) {
    && 0 <= cell < Power2(bpp) && (colour - cell) % Power2(bpp) == 0
    && (colour < Power2(bpp) ==> cell == colour)
  }

  lemma Depths()
    ensures Power2(8) == 0x100 && Power2(16) == 0x1_0000 && Power2(32) == 0x1_0000_0000
  {
    assert Power2(4) == 16;
    assert Power2(12) == 0x1000;
    assert Power2(20) == 0x10_0000;
    assert Power2(24) == 0x100_0000;
    assert Power2(28) == 0x1000_0000;
  }

  lemma StoredShows(bpp: nat, colour: nat, was: int)
    ensures if DrawnDepth(bpp) then ShowsColour(bpp, colour, Stored(bpp, colour, was)) else Stored(bpp, colour, was) == was
  {
    Depths();
    if DrawnDepth(bpp) {
      var m := Power2(bpp);
      hide Power2;
      DivModUnique(colour - colour % m, m, colour / m, 0);
      if colour < m { ModSmall(colour, m); }
    }
  }

  /** Exactly the cells of the rectangle show the colour, and no other cell
      changed; with a depth that is not drawn to, none did. */
  ghost predicate ColouredRect(was: seq<int>, now: seq<int>, pitch: nat, bpp: nat, colour: nat, r: Rect)
    requires pitch > 0
  {
    |was| == |now| &&
    forall i | 0 <= i < |now| ::
      if DrawnDepth(bpp) && Within(r, i % pitch, i / pitch) then ShowsColour(bpp, colour, now[i]) else now[i] == was[i]
  }

  lemma PaintedIsColoured(was: seq<int>, now: seq<int>, pitch: nat, bpp: nat, colour: nat, r: Rect)
    requires pitch > 0 && PaintedRect(was, now, pitch, bpp, colour, r)
    ensures ColouredRect(was, now, pitch, bpp, colour, r)
  {
    hide Stored, ShowsColour;
    forall i | 0 <= i < |now|
      ensures if DrawnDepth(bpp) && Within(r, i % pitch, i / pitch) then ShowsColour(bpp, colour, now[i]) else now[i] == was[i]
    {
      StoredShows(bpp, colour, was[i]);
    }
  }

  /** now is was with exactly the cells of the rectangle drawn. */
  ghost predicate PaintedRect(was: seq<int>, now: seq<int>, pitch: nat, bpp: nat, colour: nat, r: Rect)
    requires pitch > 0
  {
    |was| == |now| &&
    forall i | 0 <= i < |now| ::
      now[i] == if Within(r, i % pitch, i / pitch) then Stored(bpp, colour, was[i]) else was[i]
  }

  /** The pixels of a line, as a function of the longer coordinate. */
  predicate OnLine(x1: int, y1: int, x2: int, y2: int, px: int, py: int) {
    if y1 == y2 then py == y1 && x1 <= px <= x2
    else if x1 == x2 then px == x1 && y1 <= py <= y2
    else if Abs(x2 - x1) >= Abs(y2 - y1) then
      x1 <= px <= x2 && py == y1 + Minor(px - x1, y2 - y1, x2 - x1)
    else
      y1 <= py <= y2 && px == x1 + Minor(py - y1, x2 - x1, y2 - y1)
  }

  function Abs(x: int): nat { if x < 0 then -x else x }

  /** now is was with exactly the pixels of the line drawn whose longer
      coordinate is before `end`. */
  ghost predicate PaintedLine(was: seq<int>, now: seq<int>, pitch: nat, bpp: nat, colour: nat,
                              x1: int, y1: int, x2: int, y2: int, end: int)
    requires pitch > 0
  {
    |was| == |now| &&
    forall i | 0 <= i < |now| ::
      now[i] == if OnLine(x1, y1, x2, y2, i % pitch, i / pitch) && Longer(x1, y1, x2, y2, i % pitch, i / pitch) < end
                then Stored(bpp, colour, was[i]) else was[i]
  }

  /** Exactly the pixels of the line show the colour. */
  ghost predicate ColouredLine(was: seq<int>, now: seq<int>, pitch: nat, bpp: nat, colour: nat,
                               x1: int, y1: int, x2: int, y2: int)
    requires pitch > 0
  {
    |was| == |now| &&
    forall i | 0 <= i < |now| ::
      if DrawnDepth(bpp) && OnLine(x1, y1, x2, y2, i % pitch, i / pitch) then ShowsColour(bpp, colour, now[i])
      else now[i] == was[i]
  }

  lemma PaintedIsColouredLine(was: seq<int>, now: seq<int>, pitch: nat, bpp: nat, colour: nat,
                              x1: int, y1: int, x2: int, y2: int)
    requires pitch > 0
    requires PaintedLine(was, now, pitch, bpp, colour, x1, y1, x2, y2, 1 + if Abs(x2 - x1) >= Abs(y2 - y1) then x2 else y2)
    ensures ColouredLine(was, now, pitch, bpp, colour, x1, y1, x2, y2)
  {
    hide Stored, ShowsColour, Minor;
    forall i | 0 <= i < |now|
      ensures if DrawnDepth(bpp) && OnLine(x1, y1, x2, y2, i % pitch, i / pitch) then ShowsColour(bpp, colour, now[i])
              else now[i] == was[i]
    {
      StoredShows(bpp, colour, was[i]);
    }
  }

  function Longer(x1: int, y1: int, x2: int, y2: int, px: int, py: int): int {
    if Abs(x2 - x1) >= Abs(y2 - y1) then px else py
  }

  /** The four clip flags of a point. */
  datatype Flags = Flags(left: bool, right: bool, above: bool, below: bool) {
    predicate Any() { left || right || above || below }
    function And(f: Flags): Flags { Flags(left && f.left, right && f.right, above && f.above, below && f.below) }
  }

  function ClipFlags(r: Rect, x: int, y: int): Flags {
    Flags(x < r.xmin, x > r.xmax, y < r.ymin, y > r.ymax)
  }

  function Clamp(lo: int, hi: int, x: int): int { if x < lo then lo else if x > hi then hi else x }

  function ClampedRect(width: nat, height: nat, r: Rect): Rect {
    Rect(Clamp(0, width - 1, r.xmin), Clamp(0, height - 1, r.ymin),
         Clamp(0, width - 1, r.xmax), Clamp(0, height - 1, r.ymax))
  }

  /** Clamping the corners keeps exactly the requested part of the surface if
      and only if the rectangle overlaps the surface; a rectangle beside it
      leaves a strip along the edge drawable. */
  lemma ClampedRectExactIff(width: nat, height: nat, r: Rect)
    requires width >= 1 && height >= 1 && r.xmin <= r.xmax && r.ymin <= r.ymax
    ensures (forall x, y | 0 <= x < width && 0 <= y < height :: Within(ClampedRect(width, height, r), x, y) <==> Within(r, x, y))
            <==> r.xmin < width && r.xmax >= 0 && r.ymin < height && r.ymax >= 0
  {
    var c := ClampedRect(width, height, r);
    assert Within(c, c.xmin, c.ymin) && Within(c, c.xmax, c.ymax);
    if !(r.xmin < width && r.xmax >= 0 && r.ymin < height && r.ymax >= 0) {
      assert !Within(r, c.xmin, c.ymin);
    }
  }

  class CSurface {
    const width: nat
    const height: nat
    const xpitch: nat
    const bpp: nat
    const cells: array<int>

    ghost predicate Proper() {
      1 <= width <= xpitch && 1 <= height && height * xpitch <= cells.Length
    }

    constructor (w: nat, h: nat, pitch: nat, depth: nat)
      requires 1 <= w <= pitch && 1 <= h
      ensures Proper() && width == w && height == h && xpitch == pitch && bpp == depth && fresh(cells)
    {
      width, height, xpitch, bpp := w, h, pitch, depth;
      MulNonNegative(h, pitch);
      cells := new int[h * pitch](_ => 0);
    }
  }

  class C2DRenderer {
    var surface: CSurface?
    var clipper: Rect
    var colour: nat

    /** The clip rectangle is a non-empty part of the surface. */
    ghost predicate Valid()
      reads this
    {
      surface != null ==>
        && surface.Proper()
        && 0 <= clipper.xmin <= clipper.xmax < surface.width
        && 0 <= clipper.ymin <= clipper.ymax < surface.height
    }

    constructor (surf: CSurface?, c: nat)
      requires surf != null ==> surf.Proper()
      ensures Valid() && surface == surf && colour == c
    {
      colour := c;
      clipper := Rect(0, 0, 0, 0);
      surface := surf;
      if surf != null {
        clipper := Rect(0, 0, surf.width - 1, surf.height - 1);
      }
    }

    method SetSurface(surf: CSurface?)
      requires surf != null ==> surf.Proper()
      modifies this
      ensures Valid() && surface == surf && colour == old(colour)
      ensures surf != null ==> clipper == Rect(0, 0, surf.width - 1, surf.height - 1)
    {
      surface := surf;
      if surf != null {
        clipper := Rect(0, 0, surf.width - 1, surf.height - 1);
      }
    }

    /** The clip rectangle becomes the given one, its corners clamped. */
    method SetClipRect(x: int, y: int, width: nat, height: nat)
      requires Valid() && width >= 1 && height >= 1
      modifies `clipper
      ensures Valid()
      ensures clipper == if surface == null then old(clipper)
                         else ClampedRect(surface.width, surface.height, Rect(x, y, x + width - 1, y + height - 1))
    {
      if surface == null {
        return;
      }
      var x1, y1 := x, y;
      var x2 := x + width - 1;
      var y2 := y + height - 1;
      if x1 < 0 { x1 := 0; } else if x1 >= surface.width { x1 := surface.width - 1; }
      if y1 < 0 { y1 := 0; } else if y1 >= surface.height { y1 := surface.height - 1; }
      if x2 < 0 { x2 := 0; } else if x2 >= surface.width { x2 := surface.width - 1; }
      if y2 < 0 { y2 := 0; } else if y2 >= surface.height { y2 := surface.height - 1; }
      clipper := Rect(x1, y1, x2, y2);
    }

    /** SET_PIXEL. */
    method SetPixel(x: int, y: int)
      requires Valid() && surface != null && 0 <= x < surface.xpitch && 0 <= y < surface.height
      modifies surface.cells
      ensures PaintedRect(old(surface.cells[..]), surface.cells[..], surface.xpitch, surface.bpp, colour, Rect(x, y, x, y))
    {
      var i := CellIndex(surface, x, y);
      surface.cells[i] := Stored(surface.bpp, colour, surface.cells[i]);
      OneCell(surface.cells.Length, surface.xpitch, x, y);
    }

    /** Draws a row of cells. */
    method DrawHLine_i(x: int, y: int, width: nat)
      requires Valid() && surface != null && 0 <= x && x + width <= surface.xpitch && 0 <= y < surface.height
      modifies surface.cells
      ensures PaintedRect(old(surface.cells[..]), surface.cells[..], surface.xpitch, surface.bpp, colour,
                          Rect(x, y, x + width - 1, y))
    {
      var i: nat := 0;
      while i < width
        invariant i <= width
        invariant PaintedRect(old(surface.cells[..]), surface.cells[..], surface.xpitch, surface.bpp, colour,
                              Rect(x, y, x + i - 1, y))
      {
        SetPixel(x + i, y);
        i := i + 1;
      }
    }

    method DrawVLine_i(x: int, y: int, height: nat)
      requires Valid() && surface != null && 0 <= x < surface.xpitch && 0 <= y && y + height <= surface.height
      modifies surface.cells
      ensures PaintedRect(old(surface.cells[..]), surface.cells[..], surface.xpitch, surface.bpp, colour,
                          Rect(x, y, x, y + height - 1))
    {
      var i: nat := 0;
      while i < height
        invariant i <= height
        invariant PaintedRect(old(surface.cells[..]), surface.cells[..], surface.xpitch, surface.bpp, colour,
                              Rect(x, y, x, y + i - 1))
      {
        SetPixel(x, y + i);
        i := i + 1;
      }
    }

    method FillRect_i(x: int, y: int, width: nat, height: nat)
      requires Valid() && surface != null && 0 <= x && x + width <= surface.xpitch && 0 <= y && y + height <= surface.height
      modifies surface.cells
      ensures PaintedRect(old(surface.cells[..]), surface.cells[..], surface.xpitch, surface.bpp, colour,
                          Rect(x, y, x + width - 1, y + height - 1))
    {
      var i: nat := 0;
      while i < height
        invariant i <= height
        invariant PaintedRect(old(surface.cells[..]), surface.cells[..], surface.xpitch, surface.bpp, colour,
                              Rect(x, y, x + width - 1, y + i - 1))
      {
        DrawHLine_i(x, y + i, width);
        i := i + 1;
      }
    }

    /** Fills exactly the cells of the rectangle inside the clip rectangle. */
    method FillRect(x: int, y: int, width: nat, height: nat)
      requires Valid() && width >= 1 && height >= 1
      modifies if surface == null then {} else {surface.cells}
      ensures surface != null ==>
                PaintedRect(old(surface.cells[..]), surface.cells[..], surface.xpitch, surface.bpp, colour,
                            Intersection(clipper, Rect(x, y, x + width - 1, y + height - 1)))
      ensures surface != null ==>
                ColouredRect(old(surface.cells[..]), surface.cells[..], surface.xpitch, surface.bpp, colour,
                             Intersection(clipper, Rect(x, y, x + width - 1, y + height - 1)))
    {
      hide ColouredRect, Stored;
      if surface == null {
        return;
      }
      var x1, y1 := x, y;
      var x2 := x + width - 1;
      var y2 := y + height - 1;
      var clip1 := ClipFlags(clipper, x1, y1);
      var clip2 := ClipFlags(clipper, x2, y2);
      if clip1.And(clip2).Any() {
        PaintedIsColoured(surface.cells[..], surface.cells[..], surface.xpitch, surface.bpp, colour,
                          Intersection(clipper, Rect(x, y, x + width - 1, y + height - 1)));
        return;
      }
      if clip1.Any() {
        x1 := Clamp(clipper.xmin, clipper.xmax, x1);
        y1 := Clamp(clipper.ymin, clipper.ymax, y1);
      }
      if clip2.Any() {
        x2 := Clamp(clipper.xmin, clipper.xmax, x2);
        y2 := Clamp(clipper.ymin, clipper.ymax, y2);
      }
      FillRect_i(x1, y1, x2 - x1 + 1, y2 - y1 + 1);
      PaintedIsColoured(old(surface.cells[..]), surface.cells[..], surface.xpitch, surface.bpp, colour,
                        Intersection(clipper, Rect(x, y, x + width - 1, y + height - 1)));
    }

    /** Draws a line whose endpoints are both inside the clip rectangle, and
        nothing otherwise. */
    method DrawLine(x1: int, y1: int, x2: int, y2: int)
      requires Valid()
      requires y1 == y2 ==> x1 <= x2 + 1
      requires x1 == x2 ==> y1 <= y2 + 1
      modifies if surface == null then {} else {surface.cells}
      ensures surface != null ==>
                if Within(clipper, x1, y1) && Within(clipper, x2, y2)
                then PaintedLine(old(surface.cells[..]), surface.cells[..], surface.xpitch, surface.bpp, colour,
                                 x1, y1, x2, y2, 1 + if Abs(x2 - x1) >= Abs(y2 - y1) then x2 else y2)
                else surface.cells[..] == old(surface.cells[..])
      ensures surface != null && Within(clipper, x1, y1) && Within(clipper, x2, y2) ==>
                ColouredLine(old(surface.cells[..]), surface.cells[..], surface.xpitch, surface.bpp, colour, x1, y1, x2, y2)
    {
      hide ColouredLine, PaintedLine;
      if surface == null {
        return;
      }
      var clip1 := ClipFlags(clipper, x1, y1);
      var clip2 := ClipFlags(clipper, x2, y2);
      if clip1.And(clip2).Any() {
        return;
      }
      if clip1.Any() || clip2.Any() {
        return;
      }
      DrawLine_i(x1, y1, x2, y2);
      PaintedIsColouredLine(old(surface.cells[..]), surface.cells[..], surface.xpitch, surface.bpp, colour, x1, y1, x2, y2);
    }

    method DrawLine_i(x1: int, y1: int, x2: int, y2: int)
      requires Valid() && surface != null && Within(clipper, x1, y1) && Within(clipper, x2, y2)
      requires y1 == y2 ==> x1 <= x2 + 1
      requires x1 == x2 ==> y1 <= y2 + 1
      modifies surface.cells
      ensures PaintedLine(old(surface.cells[..]), surface.cells[..], surface.xpitch, surface.bpp, colour,
                          x1, y1, x2, y2, 1 + if Abs(x2 - x1) >= Abs(y2 - y1) then x2 else y2)
    {
      if y1 == y2 {
        DrawHLine_i(x1, y1, x2 - x1 + 1);
      } else if x1 == x2 {
        DrawVLine_i(x1, y1, y2 - y1 + 1);
      } else {
        var dx := x2 - x1;
        var dy := y2 - y1;
        if Abs(dx) >= Abs(dy) {
          DrawFlat(x1, y1, x2, y2, dx, dy);
        } else {
          DrawSteep(x1, y1, x2, y2, dx, dy);
        }
      }
    }

    /** Steps in x. */
    method DrawFlat(x1: int, y1: int, x2: int, y2: int, dx: int, dy: int)
      requires Valid() && surface != null && Within(clipper, x1, y1) && Within(clipper, x2, y2)
      requires dx == x2 - x1 && dy == y2 - y1 && dx != 0 && dy != 0 && Abs(dx) >= Abs(dy)
      modifies surface.cells
      ensures PaintedLine(old(surface.cells[..]), surface.cells[..], surface.xpitch, surface.bpp, colour,
                          x1, y1, x2, y2, 1 + x2)
    {
      hide PaintedLine, PaintedRect, Minor;
      var dda := new LineDda(dy, dx, y1);
      NothingPainted(surface.cells[..], surface.xpitch, surface.bpp, colour, x1, y1, x2, y2);
      var x := x1;
      while x <= x2
        invariant x1 <= x && (dx > 0 ==> x <= x2 + 1) && (dx < 0 ==> x == x1)
        invariant dx > 0 ==> dda.Valid() && dda.num == dy && dda.den == dx && dda.start == y1 && dda.steps == x - x1
        invariant PaintedLine(old(surface.cells[..]), surface.cells[..], surface.xpitch, surface.bpp, colour,
                              x1, y1, x2, y2, x)
      {
        dda.CurrentIsMinor();
        MinorBetween(x - x1, dy, dx);
        ghost var mid := surface.cells[..];
        SetPixel(x, dda.current);
        ExtendLine(old(surface.cells[..]), mid, surface.cells[..], surface.xpitch, surface.bpp, colour,
                   x1, y1, x2, y2, x, x, dda.current);
        dda.Increment();
        x := x + 1;
      }
      if dx < 0 {
        BackwardsIsEmpty(old(surface.cells[..]), surface.cells[..], surface.xpitch, surface.bpp, colour, x1, y1, x2, y2, x);
      }
    }

    /** Steps in y. */
    method DrawSteep(x1: int, y1: int, x2: int, y2: int, dx: int, dy: int)
      requires Valid() && surface != null && Within(clipper, x1, y1) && Within(clipper, x2, y2)
      requires dx == x2 - x1 && dy == y2 - y1 && dx != 0 && dy != 0 && Abs(dx) < Abs(dy)
      modifies surface.cells
      ensures PaintedLine(old(surface.cells[..]), surface.cells[..], surface.xpitch, surface.bpp, colour,
                          x1, y1, x2, y2, 1 + y2)
    {
      hide PaintedLine, PaintedRect, Minor;
      var dda := new LineDda(dx, dy, x1);
      NothingPainted(surface.cells[..], surface.xpitch, surface.bpp, colour, x1, y1, x2, y2);
      var y := y1;
      while y <= y2
        invariant y1 <= y && (dy > 0 ==> y <= y2 + 1) && (dy < 0 ==> y == y1)
        invariant dy > 0 ==> dda.Valid() && dda.num == dx && dda.den == dy && dda.start == x1 && dda.steps == y - y1
        invariant PaintedLine(old(surface.cells[..]), surface.cells[..], surface.xpitch, surface.bpp, colour,
                              x1, y1, x2, y2, y)
      {
        dda.CurrentIsMinor();
        MinorBetween(y - y1, dx, dy);
        ghost var mid := surface.cells[..];
        SetPixel(dda.current, y);
        ExtendLine(old(surface.cells[..]), mid, surface.cells[..], surface.xpitch, surface.bpp, colour,
                   x1, y1, x2, y2, y, dda.current, y);
        dda.Increment();
        y := y + 1;
      }
      if dy < 0 {
        BackwardsIsEmpty(old(surface.cells[..]), surface.cells[..], surface.xpitch, surface.bpp, colour, x1, y1, x2, y2, y);
      }
    }
  }

  lemma NothingPainted(was: seq<int>, pitch: nat, bpp: nat, colour: nat, x1: int, y1: int, x2: int, y2: int)
    requires pitch > 0 && x1 != x2 && y1 != y2
    ensures PaintedLine(was, was, pitch, bpp, colour, x1, y1, x2, y2, if Abs(x2 - x1) >= Abs(y2 - y1) then x1 else y1)
  {
    hide Minor;
  }

  /** A sloped line whose longer axis runs backwards has no pixels. */
  lemma BackwardsIsEmpty(was: seq<int>, now: seq<int>, pitch: nat, bpp: nat, colour: nat,
                         x1: int, y1: int, x2: int, y2: int, end: int)
    requires pitch > 0 && x1 != x2 && y1 != y2
    requires if Abs(x2 - x1) >= Abs(y2 - y1) then x2 < x1 else y2 < y1
    requires PaintedLine(was, now, pitch, bpp, colour, x1, y1, x2, y2, end)
    ensures forall e :: PaintedLine(was, now, pitch, bpp, colour, x1, y1, x2, y2, e)
  {
    hide Minor;
  }

  /** Drawing one more pixel of a sloped line. */
  lemma ExtendLine(was: seq<int>, mid: seq<int>, now: seq<int>, pitch: nat, bpp: nat, colour: nat,
                   x1: int, y1: int, x2: int, y2: int, end: int, x: int, y: int)
    requires pitch > 0 && x1 != x2 && y1 != y2
    requires PaintedLine(was, mid, pitch, bpp, colour, x1, y1, x2, y2, end)
    requires PaintedRect(mid, now, pitch, bpp, colour, Rect(x, y, x, y))
    requires OnLine(x1, y1, x2, y2, x, y) && Longer(x1, y1, x2, y2, x, y) == end
    ensures PaintedLine(was, now, pitch, bpp, colour, x1, y1, x2, y2, end + 1)
  {
    hide Minor;
  }

  /** The points in both rectangles. */
  function Intersection(a: Rect, b: Rect): (r: Rect)
    ensures forall x, y :: Within(r, x, y) <==> Within(a, x, y) && Within(b, x, y)
  {
    Rect(if a.xmin > b.xmin then a.xmin else b.xmin, if a.ymin > b.ymin then a.ymin else b.ymin,
         if a.xmax < b.xmax then a.xmax else b.xmax, if a.ymax < b.ymax then a.ymax else b.ymax)
  }

  /** The index SET_PIXEL computes. */
  function CellIndex(s: CSurface, x: int, y: int): (i: nat)
    requires s.Proper() && 0 <= x < s.xpitch && 0 <= y < s.height
    ensures i < s.cells.Length && i % s.xpitch == x && i / s.xpitch == y
  {
    MulNonNegative(y, s.xpitch);
    MulNonNegative(s.height - 1 - y, s.xpitch);
    assert (s.height - 1 - y) * s.xpitch == s.height * s.xpitch - s.xpitch - y * s.xpitch;
    CellOf(x, y, s.xpitch);
    y * s.xpitch + x
  }

  /** No other cell has the same column and row. */
  lemma OneCell(n: nat, pitch: nat, x: int, y: int)
    requires pitch > 0
    ensures forall i | 0 <= i < n :: Within(Rect(x, y, x, y), i % pitch, i / pitch) ==> i == y * pitch + x
  {
    forall i | 0 <= i < n && Within(Rect(x, y, x, y), i % pitch, i / pitch) ensures i == y * pitch + x {
      assert i == (i / pitch) * pitch + i % pitch;
    }
  }
}
