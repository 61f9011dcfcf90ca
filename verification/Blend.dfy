/**
 Fixed-point blending: the fast modes blendFunc of gl/rasterCommon.cpp picks,
 and rasterBlend of gl/rasterScanline.cpp, against the blend equation of
 OpenGL 1.2.1, section 4.1.6.  Colour components have 14 fractional bits;
 shifting right is the floor of a division, also of negative numbers.
 */
module Blend {
  import opened Arithmetic

  const SHIFT: int := 16384     // 1 << SHIFT_COLOR_CALC
  const ONE: int := SHIFT       // constColorCompOne

  datatype Factor =
    | Zero | One
    | SrcColor | OneMinusSrcColor | DstColor | OneMinusDstColor
    | SrcAlpha | OneMinusSrcAlpha | DstAlpha | OneMinusDstAlpha
    | SrcAlphaSaturate

  datatype FastMode = FbOther | FbZero | FbSource | FbDest | FbAdd | FbBlend

  datatype Channel = R | G | B | A

  datatype Color = Color(r: int, g: int, b: int, a: int) {
    function At(i: Channel): int {
      match i
      case R => r
      case G => g
      case B => b
      case A => a
    }

    function Plus(c: Color): Color { Color(r + c.r, g + c.g, b + c.b, a + c.a) }

    function Minus(c: Color): Color { Color(r - c.r, g - c.g, b - c.b, a - c.a) }

    function Times(c: Color): Color { Color(r * c.r, g * c.g, b * c.b, a * c.a) }

    function Shift(): Color { Color(r / SHIFT, g / SHIFT, b / SHIFT, a / SHIFT) }
  }

  function Grey(x: int): Color { Color(x, x, x, x) }

  predicate InUnit(x: int) { 0 <= x <= ONE }

  ghost predicate Legal(c: Color) { forall i :: InUnit(c.At(i)) }

  // ---------------------------------------------------------------------
  // The blend equation
  // ---------------------------------------------------------------------

  /** The blend factor of one component in tables 4.1 and 4.2 of OpenGL 1.2.1. */
  function StandardFactor(f: Factor, source: Color, dest: Color, i: Channel): int {
    match f
    case Zero => 0
    case One => ONE
    case SrcColor => source.At(i)
    case OneMinusSrcColor => ONE - source.At(i)
    case DstColor => dest.At(i)
    case OneMinusDstColor => ONE - dest.At(i)
    case SrcAlpha => source.a
    case OneMinusSrcAlpha => ONE - source.a
    case DstAlpha => dest.a
    case OneMinusDstAlpha => ONE - dest.a
    case SrcAlphaSaturate =>
      if i == A then ONE else if source.a < ONE - dest.a then source.a else ONE - dest.a
  }

  /** The exact weighted sum, in units of 1 / (ONE * ONE), for given factors. */
  function Weighted(s: int, fs: int, d: int, fd: int): int { s * fs + d * fd }

  /** x is the sum, at most one, rounded down to 14 bits. */
  ghost predicate RoundedDown(x: int, sum: int) {
    InUnit(x) && if sum >= ONE * ONE then x == ONE else x * SHIFT <= sum < x * SHIFT + SHIFT
  }

  /** out is what OpenGL's equation gives for these factors, rounded down. */
  ghost predicate BlendOf(sf: Factor, df: Factor, source: Color, dest: Color, out: Color) {
    forall i :: RoundedDown(out.At(i), Weighted(source.At(i), StandardFactor(sf, source, dest, i),
                                                dest.At(i), StandardFactor(df, source, dest, i)))
  }

  /** The equation determines the colour. */
  lemma BlendUnique(sf: Factor, df: Factor, source: Color, dest: Color, x: Color, y: Color)
    requires BlendOf(sf, df, source, dest, x) && BlendOf(sf, df, source, dest, y)
    ensures x == y
  {
    hide StandardFactor, Weighted;
    forall i ensures x.At(i) == y.At(i) {
      var sum := Weighted(source.At(i), StandardFactor(sf, source, dest, i), dest.At(i), StandardFactor(df, source, dest, i));
      assert RoundedDown(x.At(i), sum) && RoundedDown(y.At(i), sum);
    }
    assert x.At(R) == y.At(R) && x.At(G) == y.At(G) && x.At(B) == y.At(B) && x.At(A) == y.At(A);
  }

  // ---------------------------------------------------------------------
  // The general mode
  // ---------------------------------------------------------------------

  /** colorBlendFactor: GL_SRC_ALPHA_SATURATE falls into the default branch. */
  function ColorBlendFactor(f: Factor, source: Color, dest: Color): Color {
    match f
    case One => Grey(ONE)
    case SrcColor => source
    case OneMinusSrcColor => Grey(ONE).Minus(source)
    case DstColor => dest
    case OneMinusDstColor => Grey(ONE).Minus(dest)
    case SrcAlpha => Grey(source.a)
    case OneMinusSrcAlpha => Grey(ONE - source.a)
    case DstAlpha => Grey(dest.a)
    case OneMinusDstAlpha => Grey(ONE - dest.a)
    case _ => Grey(0)
  }

  /** The code has the factors of the standard exactly if the factor is not
      GL_SRC_ALPHA_SATURATE. */
  lemma FactorsMeetOpenGlIff(f: Factor)
    ensures f != SrcAlphaSaturate <==>
            forall source, dest, i :: Legal(source) && Legal(dest) ==>
              ColorBlendFactor(f, source, dest).At(i) == StandardFactor(f, source, dest, i)
  {
    if f == SrcAlphaSaturate {
      var c := Grey(0);
      assert Legal(c) && ColorBlendFactor(f, c, c).At(A) != StandardFactor(f, c, c, A);
    }
  }

  /** Laws of the blend factors: source and destination factors are exchanged
      when the colours are, a factor and its complement make one, an alpha factor
      is the same for all components, and the factors of a source do not look at
      the destination. */
  lemma FactorLaws(source: Color, dest: Color, other: Color, i: Channel)
    ensures var f := (x: Factor, s: Color, d: Color) => ColorBlendFactor(x, s, d).At(i);
            && f(SrcColor, source, dest) == f(DstColor, dest, source)
            && f(SrcAlpha, source, dest) == f(DstAlpha, dest, source)
            && f(SrcColor, source, dest) == f(SrcColor, source, other)
            && f(SrcAlpha, source, dest) == f(SrcAlpha, source, other)
            && f(SrcAlpha, source, dest) == ColorBlendFactor(SrcColor, source, dest).a
            && f(SrcColor, source, dest) + f(OneMinusSrcColor, source, dest) == ONE
            && f(DstColor, source, dest) + f(OneMinusDstColor, source, dest) == ONE
            && f(SrcAlpha, source, dest) + f(OneMinusSrcAlpha, source, dest) == ONE
            && f(DstAlpha, source, dest) + f(OneMinusDstAlpha, source, dest) == ONE
            && f(Zero, source, dest) + f(One, source, dest) == ONE && f(Zero, source, dest) == 0
  {
  }

  function ClampMax(x: int): int { if x > ONE then ONE else x }

  /** color_clamp_max */
  function ColorClampMax(c: Color): Color { Color(ClampMax(c.r), ClampMax(c.g), ClampMax(c.b), ClampMax(c.a)) }

  function General(sf: Factor, df: Factor, source: Color, dest: Color): Color {
    ColorClampMax(source.Times(ColorBlendFactor(sf, source, dest))
                  .Plus(dest.Times(ColorBlendFactor(df, source, dest))).Shift())
  }

  /** lerp_fx: the difference may be negative and is shifted on its own. */
  function LerpFx(a: int, v0: Color, v1: Color): Color {
    v0.Plus(v1.Minus(v0).Times(Grey(a)).Shift())
  }

  /** What the fast modes compute instead of the general equation. */
  function Fast(mode: FastMode, source: Color, dest: Color): Color
    requires mode != FbOther
  {
    match mode
    case FbZero => Grey(0)
    case FbSource => source
    case FbDest => dest
    case FbAdd => ColorClampMax(source.Plus(dest))
    case FbBlend => LerpFx(source.a, dest, source)
  }

  function FastModeOf(sf: Factor, df: Factor): FastMode {
    if sf == Zero && df == Zero then FbZero
    else if sf == One && df == Zero then FbSource
    else if sf == Zero && df == One then FbDest
    else if sf == One && df == One then FbAdd
    else if sf == SrcAlpha && df == OneMinusSrcAlpha then FbBlend
    else FbOther
  }

  // ---------------------------------------------------------------------
  // Agreement
  // ---------------------------------------------------------------------

  lemma ProductInUnit(x: int, y: int)
    requires InUnit(x) && InUnit(y)
    ensures 0 <= x * y <= ONE * ONE
  {
    MulNonNegative(x, y);
    MulNonNegative(ONE - x, y);
    assert (ONE - x) * y == ONE * y - x * y;
  }

  /** Shifting and clamping a sum of two products rounds it down; the sum has
      at most 30 bits. */
  lemma ShiftRounds(s: int, fs: int, d: int, fd: int)
    requires InUnit(s) && InUnit(fs) && InUnit(d) && InUnit(fd)
    ensures RoundedDown(ClampMax((s * fs + d * fd) / SHIFT), Weighted(s, fs, d, fd))
    ensures 0 <= s * fs <= 0x1000_0000 && 0 <= d * fd <= 0x1000_0000
  {
    ProductInUnit(s, fs);
    ProductInUnit(d, fd);
    var sum := s * fs + d * fd;
    assert sum == sum / SHIFT * SHIFT + sum % SHIFT;
  }

  /** Interpolating is the weighted sum, and the difference stays within 30
      bits. */
  lemma LerpIsWeighted(s: int, d: int, a: int)
    requires InUnit(s) && InUnit(d) && InUnit(a)
    ensures d + (s - d) * a / SHIFT == (s * a + d * (ONE - a)) / SHIFT
    ensures s * a + d * (ONE - a) <= ONE * ONE
    ensures -0x1000_0000 <= (s - d) * a <= 0x1000_0000
  {
    assert s * a + d * (ONE - a) == (s - d) * a + d * SHIFT;
    DivModShift((s - d) * a, d, SHIFT);
    ProductInUnit(s, a);
    ProductInUnit(d, a);
    assert (s - d) * a == s * a - d * a;
    MulNonNegative(ONE - s, a);
    MulNonNegative(ONE - d, ONE - a);
    assert (ONE - s) * a + (ONE - d) * (ONE - a) == ONE * ONE - (s * a + d * (ONE - a));
  }

  lemma FactorLegal(f: Factor, source: Color, dest: Color)
    requires Legal(source) && Legal(dest)
    ensures Legal(ColorBlendFactor(f, source, dest))
  {
    assert InUnit(source.At(A)) && InUnit(dest.At(A));
    forall i ensures InUnit(ColorBlendFactor(f, source, dest).At(i)) {
      assert InUnit(source.At(i)) && InUnit(dest.At(i));
    }
  }

  lemma GeneralAt(sf: Factor, df: Factor, source: Color, dest: Color, i: Channel)
    ensures General(sf, df, source, dest).At(i) ==
            ClampMax((source.At(i) * ColorBlendFactor(sf, source, dest).At(i)
                      + dest.At(i) * ColorBlendFactor(df, source, dest).At(i)) / SHIFT)
  {
    hide ColorBlendFactor;
  }

  /** The general mode yields a colour, whatever the factors. */
  lemma GeneralLegal(sf: Factor, df: Factor, source: Color, dest: Color)
    requires Legal(source) && Legal(dest)
    ensures Legal(General(sf, df, source, dest))
  {
    FactorLegal(sf, source, dest);
    FactorLegal(df, source, dest);
    hide General, ColorBlendFactor, Weighted, ClampMax, InUnit;
    forall i ensures InUnit(General(sf, df, source, dest).At(i)) {
      GeneralAt(sf, df, source, dest, i);
      ShiftRounds(source.At(i), ColorBlendFactor(sf, source, dest).At(i),
                  dest.At(i), ColorBlendFactor(df, source, dest).At(i));
    }
  }

  /** The general mode computes the blend equation. */
  lemma GeneralIsBlend(sf: Factor, df: Factor, source: Color, dest: Color)
    requires sf != SrcAlphaSaturate && df != SrcAlphaSaturate && Legal(source) && Legal(dest)
    ensures BlendOf(sf, df, source, dest, General(sf, df, source, dest))
  {
    FactorsMeetOpenGlIff(sf);
    FactorsMeetOpenGlIff(df);
    FactorLegal(sf, source, dest);
    FactorLegal(df, source, dest);
    hide General, ColorBlendFactor, StandardFactor, RoundedDown, Weighted, ClampMax, InUnit;
    forall i ensures RoundedDown(General(sf, df, source, dest).At(i),
                                 Weighted(source.At(i), StandardFactor(sf, source, dest, i),
                                          dest.At(i), StandardFactor(df, source, dest, i)))
    {
      GeneralAt(sf, df, source, dest, i);
      ShiftRounds(source.At(i), ColorBlendFactor(sf, source, dest).At(i),
                  dest.At(i), ColorBlendFactor(df, source, dest).At(i));
    }
  }

  /** Every fast mode equals the general mode it stands for, bit for bit. */
  lemma FastIsGeneral(sf: Factor, df: Factor, source: Color, dest: Color)
    requires Legal(source) && Legal(dest) && FastModeOf(sf, df) != FbOther
    ensures Fast(FastModeOf(sf, df), source, dest) == General(sf, df, source, dest)
  {
    var x, y := Fast(FastModeOf(sf, df), source, dest), General(sf, df, source, dest);
    forall i ensures x.At(i) == y.At(i) {
      GeneralAt(sf, df, source, dest, i);
      FastAt(sf, df, source, dest, i);
    }
    assert x.At(R) == y.At(R) && x.At(G) == y.At(G) && x.At(B) == y.At(B) && x.At(A) == y.At(A);
  }

  lemma FastAt(sf: Factor, df: Factor, source: Color, dest: Color, i: Channel)
    requires Legal(source) && Legal(dest) && FastModeOf(sf, df) != FbOther
    ensures Fast(FastModeOf(sf, df), source, dest).At(i) ==
            ClampMax((source.At(i) * ColorBlendFactor(sf, source, dest).At(i)
                      + dest.At(i) * ColorBlendFactor(df, source, dest).At(i)) / SHIFT)
  {
    var s, d := source.At(i), dest.At(i);
    assert InUnit(s) && InUnit(d) && InUnit(source.At(A));
    match FastModeOf(sf, df)
    case FbZero =>
    case FbSource => DivModUnique(s * ONE, SHIFT, s, 0);
    case FbDest => DivModUnique(d * ONE, SHIFT, d, 0);
    case FbAdd => DivModUnique(s * ONE + d * ONE, SHIFT, s + d, 0);
    case FbBlend =>
      LerpIsWeighted(s, d, source.a);
      DivMonotone(s * source.a + d * (ONE - source.a), ONE * ONE, SHIFT);
  }

  // ---------------------------------------------------------------------
  // The rasterizer's blending state
  // ---------------------------------------------------------------------

  class Blender {
    var sFactor: Factor
    var dFactor: Factor
    var mode: FastMode

    /** The fast mode stands for the factors. */
    ghost predicate Valid()
      reads this
    {
      mode == FastModeOf(sFactor, dFactor)
    }

    constructor ()
      ensures Valid() && sFactor == One && dFactor == Zero
    {
      sFactor, dFactor, mode := One, Zero, FbSource;
    }

    method BlendFunc(sf: Factor, df: Factor)
      modifies this
      ensures Valid() && sFactor == sf && dFactor == df
    {
      sFactor := sf;
      dFactor := df;
      if sf == Zero && df == Zero {
        mode := FbZero;
      } else if sf == One && df == Zero {
        mode := FbSource;
      } else if sf == Zero && df == One {
        mode := FbDest;
      } else if sf == One && df == One {
        mode := FbAdd;
      } else if sf == SrcAlpha && df == OneMinusSrcAlpha {
        mode := FbBlend;
      } else {
        mode := FbOther;
      }
    }

    /** rasterBlend: whichever mode is set, the result is the blend equation of
        OpenGL, rounded down, in every component. */
    method RasterBlend(source: Color, dest: Color) returns (out: Color)
      requires Valid() && Legal(source) && Legal(dest)
      ensures Legal(out) && out == General(sFactor, dFactor, source, dest)
      ensures sFactor != SrcAlphaSaturate && dFactor != SrcAlphaSaturate ==>
                BlendOf(sFactor, dFactor, source, dest, out)
    {
      match mode {
        case FbZero => out := Grey(0);
        case FbSource => out := source;
        case FbDest => out := dest;
        case FbAdd => out := ColorClampMax(source.Plus(dest));
        case FbBlend => out := LerpFx(source.a, dest, source);
        case FbOther =>
          var cs := ColorBlendFactor(sFactor, source, dest);
          var cd := ColorBlendFactor(dFactor, source, dest);
          out := ColorClampMax(source.Times(cs).Plus(dest.Times(cd)).Shift());
      }
      assert mode != FbOther ==> out == Fast(mode, source, dest);
      Agrees(source, dest);
    }

    lemma Agrees(source: Color, dest: Color)
      requires Valid() && Legal(source) && Legal(dest)
      ensures mode != FbOther ==> Fast(mode, source, dest) == General(sFactor, dFactor, source, dest)
      ensures Legal(General(sFactor, dFactor, source, dest))
      ensures sFactor != SrcAlphaSaturate && dFactor != SrcAlphaSaturate ==>
                BlendOf(sFactor, dFactor, source, dest, General(sFactor, dFactor, source, dest))
    {
      hide General, Fast, StandardFactor, Weighted;
      GeneralLegal(sFactor, dFactor, source, dest);
      if mode != FbOther { FastIsGeneral(sFactor, dFactor, source, dest); }
      if sFactor != SrcAlphaSaturate && dFactor != SrcAlphaSaturate { GeneralIsBlend(sFactor, dFactor, source, dest); }
    }
  }
}
