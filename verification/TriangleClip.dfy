/**
 The recursive triangle clipper of gl/render.cpp (rasterTriangleClip) and its
 meaning: which points of the input triangle are kept, and how signed area is
 shared out.  `Clip` lists the triangles that reach fragmentCull, in order.
 */
module TriangleClip {
  import opened Common
  import opened ClipGeometry

  // ---------------------------------------------------------------------
  // The recursion
  // ---------------------------------------------------------------------

  function ClipOr(t: Tri): Outcode { t.v0.clip.Or(t.v1.clip).Or(t.v2.clip) }

  function ClipAnd(t: Tri): Outcode { t.v0.clip.And(t.v1.clip).And(t.v2.clip) }

  /** The bit of plane p in the exclusive or of the three outcodes. */
  predicate ClipXor(t: Tri, p: nat) {
    t.v0.clip.Xor(t.v1.clip).Xor(t.v2.clip).Bit(p)
  }

  /** The first set bit at or after `bit`, or 6. */
  function NextBit(codes: Outcode, bit: nat): (b: nat)
    requires bit <= 6
    ensures bit <= b <= 6
    ensures forall q: nat | bit <= q < b :: !codes.Bit(q)
    ensures b < 6 ==> codes.Bit(b)
    decreases 6 - bit
  {
    if bit < 6 && !codes.Bit(bit) then NextBit(codes, bit + 1) else bit
  }

  function Turn(t: Tri): Tri { Tri(t.v1, t.v2, t.v0) }

  /** Rearranged so that the vertex whose bit p equals `outside` comes first. */
  function Lead(t: Tri, p: nat, outside: bool): Tri {
    if t.v0.clip.Bit(p) == outside then t
    else if t.v1.clip.Bit(p) == outside then Turn(t)
    else Turn(Turn(t))
  }

  /** The new vertices on the two edges that leave the leading vertex. */
  function New1(st: State, t: Tri, p: nat, outside: bool): Vertex
    requires p < 6
  {
    if outside then Cut(st, p, t.v1, t.v0) else Cut(st, p, t.v0, t.v1)
  }

  function New2(st: State, t: Tri, p: nat, outside: bool): Vertex
    requires p < 6
  {
    if outside then Cut(st, p, t.v2, t.v0) else Cut(st, p, t.v0, t.v2)
  }

  /** The pieces passed to the recursive calls, in call order. */
  function Kept(st: State, t: Tri, p: nat, outside: bool): (r: seq<Tri>)
    requires p < 6
    ensures |r| == if outside then 2 else 1
  {
    var n1, n2 := New1(st, t, p, outside), New2(st, t, p, outside);
    if outside then [Tri(n1, t.v1, t.v2), Tri(n2, n1, t.v2)] else [Tri(t.v0, n1, n2)]
  }

  function Clip(st: State, t: Tri, bit: nat): seq<Tri>
    requires bit <= 6
    decreases 6 - bit
  {
    if ClipOr(t).Zero() then [t]
    else if !ClipAnd(t).Zero() then []
    else
      var p := NextBit(ClipOr(t), bit);
      if p == 6 then []
      else
        var outside := ClipXor(t, p);
        var kept := Kept(st, Lead(t, p, outside), p, outside);
        if outside then Clip(st, kept[0], p + 1) + Clip(st, kept[1], p + 1)
        else Clip(st, kept[0], p + 1)
  }

  // ---------------------------------------------------------------------
  // Facts that hold for every eps
  // ---------------------------------------------------------------------

  /** At most 64 triangles leave the clipper, each with three empty outcodes. */
  lemma {:induction false} ClipBound(st: State, t: Tri, bit: nat)
    requires bit <= 6
    ensures |Clip(st, t, bit)| <= Power2(6 - bit)
    ensures forall j | 0 <= j < |Clip(st, t, bit)| :: ClipOr(Clip(st, t, bit)[j]).Zero()
    decreases 6 - bit
  {
    hide Clip, ClipXor, Lead, Kept, NextBit, ClipAnd, ClipOr;
    Power2Mono(0, 6 - bit);
    if ClipOr(t).Zero() || !ClipAnd(t).Zero() || NextBit(ClipOr(t), bit) == 6 {
      NoSplit(st, t, bit);
    } else {
      var p, kept := Unfold(st, t, bit);
      ClipBound(st, kept[0], p + 1);
      if |kept| == 2 { ClipBound(st, kept[1], p + 1); }
      Power2Mono(5 - p, 5 - bit);
      assert Power2(6 - bit) == 2 * Power2(5 - bit);
    }
  }

  lemma NoSplit(st: State, t: Tri, bit: nat)
    requires bit <= 6
    ensures ClipOr(t).Zero() ==> Clip(st, t, bit) == [t]
    ensures !ClipOr(t).Zero() && (!ClipAnd(t).Zero() || NextBit(ClipOr(t), bit) == 6) ==> Clip(st, t, bit) == []
  {
  }

  /** One unfolding of Clip in the splitting case. */
  lemma Unfold(st: State, t: Tri, bit: nat) returns (p: nat, kept: seq<Tri>)
    requires bit <= 6 && !ClipOr(t).Zero() && ClipAnd(t).Zero()
    requires NextBit(ClipOr(t), bit) < 6
    ensures p == NextBit(ClipOr(t), bit)
    ensures var outside := ClipXor(t, p);
            && kept == Kept(st, Lead(t, p, outside), p, outside)
            && |kept| == (if outside then 2 else 1)
            && Clip(st, t, bit) == if outside then Clip(st, kept[0], p + 1) + Clip(st, kept[1], p + 1)
                                   else Clip(st, kept[0], p + 1)
  {
    hide ClipXor, Lead, Kept, NextBit, ClipAnd, ClipOr;
    p := NextBit(ClipOr(t), bit);
    kept := Kept(st, Lead(t, p, ClipXor(t, p)), p, ClipXor(t, p));
  }

  lemma {:induction false} Power2Mono(a: nat, b: nat)
    requires a <= b
    ensures 1 <= Power2(a) <= Power2(b)
    decreases b
  {
    if a < b { Power2Mono(a, b - 1); } else if a > 0 { Power2Mono(a - 1, b - 1); }
  }

  /** For every eps: the emitted vertices carry their own outcode, which is
      zero, so they lie in the volume widened by eps. */
  lemma {:induction false} EmittedWithinWidened(st: State, t: Tri, bit: nat, r: Tri)
    requires bit <= 6 && Coded(st, t) && r in Clip(st, t, bit)
    ensures Coded(st, r) && Widened(st, r.v0.vc) && Widened(st, r.v1.vc) && Widened(st, r.v2.vc)
    decreases 6 - bit
  {
    hide Clip, ClipXor, Lead, Kept, NextBit, ClipAnd, Coded, Widened;
    if ClipOr(t).Zero() || !ClipAnd(t).Zero() || NextBit(ClipOr(t), bit) == 6 {
      NoSplit(st, t, bit);
      ZeroIsWidened(st, r);
    } else {
      var p, kept := Unfold(st, t, bit);
      KeptCoded(st, t, p, ClipXor(t, p));
      var j := if r in Clip(st, kept[0], p + 1) then 0 else 1;
      EmittedWithinWidened(st, kept[j], p + 1, r);
    }
  }

  ghost predicate Coded(st: State, t: Tri) {
    && t.v0.clip == GetClipFlags(t.v0.vc, st.eps)
    && t.v1.clip == GetClipFlags(t.v1.vc, st.eps)
    && t.v2.clip == GetClipFlags(t.v2.vc, st.eps)
  }

  ghost predicate Widened(st: State, v: Vec4) {
    var w := v.w * (1.0 + st.eps);
    -w <= v.x <= w && -w <= v.y <= w && -w <= v.z <= w
  }

  lemma ZeroIsWidened(st: State, t: Tri)
    requires Coded(st, t) && ClipOr(t).Zero()
    ensures Widened(st, t.v0.vc) && Widened(st, t.v1.vc) && Widened(st, t.v2.vc)
  {
    NoFlagsWidened(st, t.v0.vc);
    NoFlagsWidened(st, t.v1.vc);
    NoFlagsWidened(st, t.v2.vc);
    hide Widened, GetClipFlags;
  }

  lemma NoFlagsWidened(st: State, v: Vec4)
    ensures GetClipFlags(v, st.eps).Zero() ==> Widened(st, v)
  {
  }

  lemma KeptCoded(st: State, t: Tri, p: nat, outside: bool)
    requires p < 6 && Coded(st, t)
    ensures forall j | 0 <= j < |Kept(st, Lead(t, p, outside), p, outside)| ::
              Coded(st, Kept(st, Lead(t, p, outside), p, outside)[j])
  {
    hide ClipFunc, GetClipFlags, Lerp;
  }

  // ---------------------------------------------------------------------
  // The invariant of the recursion (eps == 0)
  // ---------------------------------------------------------------------

  /** A vertex as vertexShaderTransform and interpolateVertex leave it. */
  ghost predicate Proper(st: State, v: Vertex) {
    v.clip == GetClipFlags(v.vc, st.eps) && Textured(st, v) &&
    (v.clip.Zero() ==> v.vd == ClipToNDev(v.vc))
  }

  ghost predicate ProperTri(st: State, t: Tri) {
    Proper(st, t.v0) && Proper(st, t.v1) && Proper(st, t.v2)
  }

  /** All three vertices are inside the planes before `bit`. */
  ghost predicate InsideBefore(t: Tri, bit: nat)
    requires bit <= 6
  {
    forall p: nat | p < bit :: Dist(t.v0.vc, p) >= 0.0 && Dist(t.v1.vc, p) >= 0.0 && Dist(t.v2.vc, p) >= 0.0
  }

  ghost predicate Ready(st: State, t: Tri, bit: nat) {
    bit <= 6 && st.eps == 0.0 && ProperTri(st, t) && InsideBefore(t, bit)
  }

  lemma OutcodesAreDistances(st: State, t: Tri, p: nat)
    requires p < 6 && st.eps == 0.0 && ProperTri(st, t)
    ensures t.v0.clip.Bit(p) <==> Dist(t.v0.vc, p) < 0.0
    ensures t.v1.clip.Bit(p) <==> Dist(t.v1.vc, p) < 0.0
    ensures t.v2.clip.Bit(p) <==> Dist(t.v2.vc, p) < 0.0
  {
    FlagsAreHalfSpaces(t.v0.vc, p);
    FlagsAreHalfSpaces(t.v1.vc, p);
    FlagsAreHalfSpaces(t.v2.vc, p);
  }

  /** The "rounding error" return is never taken: a triangle that is neither
      accepted nor rejected still crosses a plane that was not yet looked at. */
  lemma RoundingReturnUnreachable(st: State, t: Tri, bit: nat)
    requires Ready(st, t, bit)
    requires !ClipOr(t).Zero()
    ensures NextBit(ClipOr(t), bit) < 6
  {
    hide GetClipFlags;
    forall p: nat | p < bit ensures !ClipOr(t).Bit(p) {
      OutcodesAreDistances(st, t, p);
    }
    SomeBit(ClipOr(t), bit);
  }

  lemma SomeBit(o: Outcode, bit: nat)
    requires bit <= 6 && !o.Zero()
    requires forall p: nat | p < bit :: !o.Bit(p)
    ensures NextBit(o, bit) < 6
  {
    var p := if o.b0 then 0 else if o.b1 then 1 else if o.b2 then 2
             else if o.b3 then 3 else if o.b4 then 4 else 5;
    assert o.Bit(p) && bit <= p < 6;
  }

  /** The shape of the triangle once the leading vertex is rearranged: it
      alone is outside, or it alone is inside. */
  ghost predicate Splits(st: State, t: Tri, p: nat, outside: bool) {
    p < 6 && st.eps == 0.0 && ProperTri(st, t) &&
    (if outside
     then Dist(t.v0.vc, p) < 0.0 && Dist(t.v1.vc, p) >= 0.0 && Dist(t.v2.vc, p) >= 0.0
     else Dist(t.v0.vc, p) >= 0.0 && Dist(t.v1.vc, p) < 0.0 && Dist(t.v2.vc, p) < 0.0)
  }

  /** XOR = 1 means exactly one vertex outside, XOR = 0 exactly two. */
  lemma XorSelectsSplit(st: State, t: Tri, bit: nat)
    requires Ready(st, t, bit)
    requires !ClipOr(t).Zero() && ClipAnd(t).Zero()
    ensures var p := NextBit(ClipOr(t), bit);
            p < 6 && Splits(st, Lead(t, p, ClipXor(t, p)), p, ClipXor(t, p))
            && InsideBefore(Lead(t, p, ClipXor(t, p)), p)
  {
    RoundingReturnUnreachable(st, t, bit);
    var p := NextBit(ClipOr(t), bit);
    OutcodesAreDistances(st, t, p);
    assert !ClipAnd(t).Bit(p);
    forall q: nat | bit <= q < p
      ensures Dist(t.v0.vc, q) >= 0.0 && Dist(t.v1.vc, q) >= 0.0 && Dist(t.v2.vc, q) >= 0.0
    {
      OutcodesAreDistances(st, t, q);
      assert !ClipOr(t).Bit(q);
    }
  }

  lemma DistAlongEdge(st: State, n: Vertex, a: Vertex, b: Vertex, t: real, q: nat)
    requires q < 6
    requires forall i: nat | Interpolated(st, i) :: Attr(n, i) == Lerp(t, Attr(a, i), Attr(b, i))
    ensures Dist(n.vc, q) == Lerp(t, Dist(a.vc, q), Dist(b.vc, q))
  {
    assert Attr(n, 0) == Lerp(t, Attr(a, 0), Attr(b, 0));
    assert Attr(n, 1) == Lerp(t, Attr(a, 1), Attr(b, 1));
    assert Attr(n, 2) == Lerp(t, Attr(a, 2), Attr(b, 2));
    assert Attr(n, 3) == Lerp(t, Attr(a, 3), Attr(b, 3));
  }

  lemma LerpNonNegative(t: real, a: real, b: real)
    requires 0.0 <= t <= 1.0 && a >= 0.0 && b >= 0.0
    ensures Lerp(t, a, b) >= 0.0
  {
    assert Lerp(t, a, b) == (1.0 - t) * a + t * b;
    assert (1.0 - t) * a >= 0.0 && t * b >= 0.0;
  }

  /** A new vertex is inside the planes its edge is inside, and plane p. */
  lemma CutStaysInside(st: State, p: nat, a: Vertex, b: Vertex)
    requires p < 6 && st.eps == 0.0
    requires Proper(st, a) && Proper(st, b)
    requires Dist(a.vc, p) >= 0.0 > Dist(b.vc, p)
    requires forall q: nat | q < p :: Dist(a.vc, q) >= 0.0 && Dist(b.vc, q) >= 0.0
    ensures Proper(st, Cut(st, p, a, b))
    ensures forall q: nat | q < p + 1 :: Dist(Cut(st, p, a, b).vc, q) >= 0.0
  {
    var t := CutInterpolates(st, p, a, b);
    var n := Cut(st, p, a, b);
    forall q: nat | q < p ensures Dist(n.vc, q) >= 0.0 {
      DistAlongEdge(st, n, a, b, t, q);
      LerpNonNegative(t, Dist(a.vc, q), Dist(b.vc, q));
    }
  }

  /** Every recursive call starts with the invariant for the next plane. */
  lemma KeptReady(st: State, t: Tri, p: nat, outside: bool)
    requires Splits(st, t, p, outside) && InsideBefore(t, p)
    ensures Ready(st, Kept(st, t, p, outside)[0], p + 1)
    ensures outside ==> Ready(st, Kept(st, t, p, outside)[1], p + 1)
  {
    if outside {
      CutStaysInside(st, p, t.v1, t.v0);
      CutStaysInside(st, p, t.v2, t.v0);
    } else {
      CutStaysInside(st, p, t.v0, t.v1);
      CutStaysInside(st, p, t.v0, t.v2);
    }
  }

  lemma AcceptedInside(st: State, t: Tri)
    requires st.eps == 0.0 && ProperTri(st, t) && ClipOr(t).Zero()
    ensures Ready(st, t, 6)
    ensures InViewVolume(t.v0) && InViewVolume(t.v1) && InViewVolume(t.v2)
  {
    NoFlagsIsInside(t.v0.vc);
    NoFlagsIsInside(t.v1.vc);
    NoFlagsIsInside(t.v2.vc);
    NdcInUnitCube(st, t.v0);
    NdcInUnitCube(st, t.v1);
    NdcInUnitCube(st, t.v2);
  }

  /** What reaches fragmentCull: three vertices inside all six planes, each
      with w > 0 and device coordinates in [-1, 1], or at the origin. */
  lemma {:induction false} EmittedInside(st: State, t: Tri, bit: nat, r: Tri)
    requires bit <= 6 && Ready(st, t, bit) && r in Clip(st, t, bit)
    ensures Ready(st, r, 6)
    ensures InViewVolume(r.v0) && InViewVolume(r.v1) && InViewVolume(r.v2)
    decreases 6 - bit
  {
    hide Clip, ProperTri, InsideBefore, InViewVolume;
    if ClipOr(t).Zero() {
      NoSplit(st, t, bit);
      AcceptedInside(st, t);
    } else if !ClipAnd(t).Zero() {
      NoSplit(st, t, bit);
    } else {
      var p, outside, kept := SplitStep(st, t, bit);
      if r in Clip(st, kept[0], p + 1) {
        EmittedInside(st, kept[0], p + 1, r);
      } else {
        EmittedInside(st, kept[1], p + 1, r);
      }
    }
  }

  /** The same with the invariant: every piece is ready for the next plane. */
  lemma SplitStep(st: State, t: Tri, bit: nat) returns (p: nat, outside: bool, kept: seq<Tri>)
    requires Ready(st, t, bit)
    requires !ClipOr(t).Zero() && ClipAnd(t).Zero()
    ensures bit <= p < 6 && outside == ClipXor(t, p) && p == NextBit(ClipOr(t), bit)
    ensures Splits(st, Lead(t, p, outside), p, outside)
    ensures kept == Kept(st, Lead(t, p, outside), p, outside)
    ensures |kept| == if outside then 2 else 1
    ensures Ready(st, kept[0], p + 1) && (outside ==> Ready(st, kept[1], p + 1))
    ensures Clip(st, t, bit) == if outside then Clip(st, kept[0], p + 1) + Clip(st, kept[1], p + 1)
                                else Clip(st, kept[0], p + 1)
  {
    XorSelectsSplit(st, t, bit);
    p, kept := Unfold(st, t, bit);
    outside := ClipXor(t, p);
    KeptReady(st, Lead(t, p, outside), p, outside);
  }

  predicate InUnit(x: real) { -1.0 <= x <= 1.0 }

  ghost predicate InViewVolume(v: Vertex) {
    if v.vc.w == 0.0 then v.vc == Vec4(0.0, 0.0, 0.0, 0.0) && v.vd == NotFinite
    else v.vc.w > 0.0 && v.vd.Ndc? && InUnit(v.vd.x) && InUnit(v.vd.y) && InUnit(v.vd.z)
  }

  lemma NdcInUnitCube(st: State, v: Vertex)
    requires Proper(st, v) && v.clip.Zero() && InsideAll(v.vc)
    ensures InViewVolume(v)
  {
    hide GetClipFlags;
    CoordinatesWithinW(v.vc);
    if v.vc.w > 0.0 {
      DivideByW(v.vc.x, v.vc.w);
      DivideByW(v.vc.y, v.vc.w);
      DivideByW(v.vc.z, v.vc.w);
      hide InUnit;
    }
  }

  lemma CoordinatesWithinW(v: Vec4)
    requires InsideAll(v)
    ensures -v.w <= v.x <= v.w && -v.w <= v.y <= v.w && -v.w <= v.z <= v.w
  {
    assert Dist(v, 0) >= 0.0 && Dist(v, 1) >= 0.0 && Dist(v, 2) >= 0.0;
    assert Dist(v, 3) >= 0.0 && Dist(v, 4) >= 0.0 && Dist(v, 5) >= 0.0;
  }

  lemma DivideByW(x: real, w: real)
    requires w > 0.0 && -w <= x <= w
    ensures InUnit(x * (1.0 / w))
  {
    var q := x * (1.0 / w);
    ScaledRatio(w - x, w, 1.0 - q);
    ScaledRatio(w + x, w, 1.0 + q);
  }
}
