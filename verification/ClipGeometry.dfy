/**
 The geometry the triangle clipper of gl/render.cpp works on: clip-space
 vertices, the six-plane outcode, the intersection of an edge with one plane
 and the interpolation of a new vertex.  Coordinates are mathematical reals;
 CLIP_ROUNDING_ERROR is the field `eps` of the state.
 */
module ClipGeometry {

  datatype Vec4 = Vec4(x: real, y: real, z: real, w: real)

  /** Normalized device coordinates.  Dividing by w == 0 gives NaN or infinity
      in the program, which is not a real; vertices outside the view volume do
      not get any. */
  datatype Ndc = Ndc(x: real, y: real, z: real, inv: real) | NotFinite | NotSet

  datatype Tex = Tex(u: real, v: real) | Unset

  /** The part of SVertexF that clipping reads or writes. */
  datatype Vertex = Vertex(vc: Vec4, c: Vec4, t: Tex, clip: Outcode, vd: Ndc)

  datatype Tri = Tri(v0: Vertex, v1: Vertex, v2: Vertex)

  datatype CullMode = Back | Front | FrontAndBack

  /** The part of TGLState the clipper consults. */
  datatype State = State(eps: real, smooth: bool, texturing: bool, culling: bool, cullMode: CullMode)

  // ---------------------------------------------------------------------
  // Outcodes
  // ---------------------------------------------------------------------

  /** The six low bits of the clip flags; bit p belongs to plane number p. */
  datatype Outcode = Outcode(b0: bool, b1: bool, b2: bool, b3: bool, b4: bool, b5: bool) {
    predicate Bit(p: nat) {
      match p
      case 0 => b0
      case 1 => b1
      case 2 => b2
      case 3 => b3
      case 4 => b4
      case 5 => b5
      case _ => false
    }

    function Or(o: Outcode): Outcode {
      Outcode(b0 || o.b0, b1 || o.b1, b2 || o.b2, b3 || o.b3, b4 || o.b4, b5 || o.b5)
    }

    function And(o: Outcode): Outcode {
      Outcode(b0 && o.b0, b1 && o.b1, b2 && o.b2, b3 && o.b3, b4 && o.b4, b5 && o.b5)
    }

    function Xor(o: Outcode): Outcode {
      Outcode(b0 != o.b0, b1 != o.b1, b2 != o.b2, b3 != o.b3, b4 != o.b4, b5 != o.b5)
    }

    predicate Zero() { !b0 && !b1 && !b2 && !b3 && !b4 && !b5 }
  }

  function GetClipFlags(v: Vec4, eps: real): Outcode {
    var wClip := v.w * (1.0 + eps);
    Outcode(v.x < -wClip, v.x > wClip, v.y < -wClip, v.y > wClip, v.z < -wClip, v.z > wClip)
  }

  /** The coordinate plane p looks at, with the plane's sign. */
  function Along(v: Vec4, p: nat): real
    requires p < 6
  {
    match p
    case 0 => -v.x
    case 1 => v.x
    case 2 => -v.y
    case 3 => v.y
    case 4 => -v.z
    case _ => v.z
  }

  /** Signed distance to plane p; the half-space kept by the plane is Dist >= 0. */
  function Dist(v: Vec4, p: nat): real
    requires p < 6
  {
    v.w - Along(v, p)
  }

  ghost predicate InsideAll(v: Vec4) {
    forall p: nat | p < 6 :: Dist(v, p) >= 0.0
  }

  /** With eps == 0 the outcode lists exactly the planes the vertex is beyond. */
  lemma FlagsAreHalfSpaces(v: Vec4, p: nat)
    requires p < 6
    ensures GetClipFlags(v, 0.0).Bit(p) <==> Dist(v, p) < 0.0
  {
    assert v.w * (1.0 + 0.0) == v.w;
  }

  lemma NoFlagsIsInside(v: Vec4)
    ensures GetClipFlags(v, 0.0).Zero() <==> InsideAll(v)
  {
    forall p: nat | p < 6 ensures GetClipFlags(v, 0.0).Bit(p) <==> Dist(v, p) < 0.0 {
      FlagsAreHalfSpaces(v, p);
    }
    if InsideAll(v) {
      assert Dist(v, 0) >= 0.0 && Dist(v, 1) >= 0.0 && Dist(v, 2) >= 0.0;
      assert Dist(v, 3) >= 0.0 && Dist(v, 4) >= 0.0 && Dist(v, 5) >= 0.0;
      assert v.w * (1.0 + 0.0) == v.w;
    }
  }

  // ---------------------------------------------------------------------
  // Perspective division, edge/plane intersection, interpolation
  // ---------------------------------------------------------------------

  function ClipToNDev(vc: Vec4): Ndc {
    if vc.w == 0.0 then NotFinite
    else
      var inv := 1.0 / vc.w;
      Ndc(vc.x * inv, vc.y * inv, vc.z * inv, inv)
  }

  /** clip_xmin .. clip_zmax: where edge a-b meets plane p, and the parameter t. */
  function ClipFunc(p: nat, a: Vec4, b: Vec4): (Vec4, real)
    requires p < 6
  {
    var den := -(Along(b, p) - Along(a, p)) + (b.w - a.w);
    var t := if den == 0.0 then 0.0 else (Along(a, p) - a.w) / den;
    (PlaceOnPlane(p, a, b, t), t)
  }

  /** The point at parameter t, its plane coordinate copied from w. */
  function PlaceOnPlane(p: nat, a: Vec4, b: Vec4, t: real): Vec4
    requires p < 6
  {
    var x := Lerp(t, a.x, b.x);
    var y := Lerp(t, a.y, b.y);
    var z := Lerp(t, a.z, b.z);
    var w := Lerp(t, a.w, b.w);
    match p
    case 0 => Vec4(-w, y, z, w)
    case 1 => Vec4(w, y, z, w)
    case 2 => Vec4(x, -w, z, w)
    case 3 => Vec4(x, w, z, w)
    case 4 => Vec4(x, y, -w, w)
    case _ => Vec4(x, y, w, w)
  }

  function Lerp(t: real, a: real, b: real): real {
    a + (b - a) * t
  }

  /** interpolateVertex, given the clip coordinates ClipFunc already stored. */
  function InterpolateVertex(st: State, vc: Vec4, a: Vertex, b: Vertex, t: real): Vertex {
    var c := if st.smooth
             then Vec4(Lerp(t, a.c.x, b.c.x), Lerp(t, a.c.y, b.c.y), Lerp(t, a.c.z, b.c.z), Lerp(t, a.c.w, b.c.w))
             else b.c;
    var tex := if st.texturing && a.t.Tex? && b.t.Tex?
               then Tex(Lerp(t, a.t.u, b.t.u), Lerp(t, a.t.v, b.t.v))
               else Unset;
    MakeVertex(st, vc, c, tex)
  }

  /** Sets the clip flags, and the device coordinates when no flag is set. */
  function MakeVertex(st: State, vc: Vec4, c: Vec4, tex: Tex): Vertex {
    var clip := GetClipFlags(vc, st.eps);
    Vertex(vc, c, tex, clip, if clip.Zero() then ClipToNDev(vc) else NotSet)
  }

  /** The new vertex on edge a-b at plane p. */
  function Cut(st: State, p: nat, a: Vertex, b: Vertex): Vertex
    requires p < 6
  {
    var (vc, t) := ClipFunc(p, a.vc, b.vc);
    InterpolateVertex(st, vc, a, b, t)
  }

  // ---------------------------------------------------------------------
  // Interpolated quantities, one real at a time
  // ---------------------------------------------------------------------

  /** Quantity i of a vertex: 0-3 clip coordinates, 4-7 colour, 8-9 texture. */
  function Attr(v: Vertex, i: nat): real {
    match i
    case 0 => v.vc.x
    case 1 => v.vc.y
    case 2 => v.vc.z
    case 3 => v.vc.w
    case 4 => v.c.x
    case 5 => v.c.y
    case 6 => v.c.z
    case 7 => v.c.w
    case 8 => if v.t.Tex? then v.t.u else 0.0
    case _ => if v.t.Tex? then v.t.v else 0.0
  }

  /** The quantities the state interpolates. */
  predicate Interpolated(st: State, i: nat) {
    i < 4 || (4 <= i < 8 && st.smooth) || (8 <= i < 10 && st.texturing)
  }

  ghost predicate Textured(st: State, v: Vertex) {
    st.texturing ==> v.t.Tex?
  }

  /** The parameter of the intersection, as a ratio of distances. */
  lemma CutParameter(p: nat, a: Vec4, b: Vec4)
    requires p < 6
    requires Dist(a, p) >= 0.0 > Dist(b, p)
    ensures 0.0 <= ClipFunc(p, a, b).1 < 1.0
    ensures ClipFunc(p, a, b).1 * (Dist(a, p) - Dist(b, p)) == Dist(a, p)
  {
    var da, db := Dist(a, p), Dist(b, p);
    var t := ClipFunc(p, a, b).1;
    assert t == (-da) / (db - da);
    assert t * (da - db) == da;
    ScaledRatio(da, da - db, t);
  }

  lemma LerpsAgree(t: real, aw: real, bw: real, al: real, bl: real)
    requires t * ((aw - al) - (bw - bl)) == aw - al
    ensures Lerp(t, aw, bw) == Lerp(t, al, bl)
  {
  }

  /** The stored coordinates are those of the point at parameter t, although
      the plane's own coordinate is copied from w instead of interpolated. */
  lemma CutOnEdge(p: nat, a: Vec4, b: Vec4)
    requires p < 6
    requires Dist(a, p) >= 0.0 > Dist(b, p)
    ensures var (c, t) := ClipFunc(p, a, b);
            && c.x == Lerp(t, a.x, b.x) && c.y == Lerp(t, a.y, b.y)
            && c.z == Lerp(t, a.z, b.z) && c.w == Lerp(t, a.w, b.w)
            && Dist(c, p) == 0.0
  {
    CutParameter(p, a, b);
    PlaceIsLerp(p, a, b, ClipFunc(p, a, b).1);
  }

  lemma PlaceIsLerp(p: nat, a: Vec4, b: Vec4, t: real)
    requires p < 6
    requires t * (Dist(a, p) - Dist(b, p)) == Dist(a, p)
    ensures var c := PlaceOnPlane(p, a, b, t);
            && c.x == Lerp(t, a.x, b.x) && c.y == Lerp(t, a.y, b.y)
            && c.z == Lerp(t, a.z, b.z) && c.w == Lerp(t, a.w, b.w)
            && Dist(c, p) == 0.0
  {
    hide Lerp;
    LerpsAgree(t, a.w, b.w, Along(a, p), Along(b, p));
    LerpNeg(t, a.x, b.x);
    LerpNeg(t, a.y, b.y);
    LerpNeg(t, a.z, b.z);
    assert Along(PlaceOnPlane(p, a, b, t), p) == Lerp(t, Along(a, p), Along(b, p));
  }

  lemma LerpNeg(t: real, a: real, b: real)
    ensures Lerp(t, -a, -b) == -Lerp(t, a, b)
  {
  }

  /** Every interpolated quantity of a new vertex is the same mix of the two
      ends, and the new vertex lies on the plane. */
  lemma CutInterpolates(st: State, p: nat, a: Vertex, b: Vertex) returns (t: real)
    requires p < 6
    requires Textured(st, a) && Textured(st, b)
    requires Dist(a.vc, p) >= 0.0 > Dist(b.vc, p)
    ensures t == ClipFunc(p, a.vc, b.vc).1 && 0.0 <= t < 1.0
    ensures t * (Dist(a.vc, p) - Dist(b.vc, p)) == Dist(a.vc, p)
    ensures forall i: nat | Interpolated(st, i) :: Attr(Cut(st, p, a, b), i) == Lerp(t, Attr(a, i), Attr(b, i))
    ensures Dist(Cut(st, p, a, b).vc, p) == 0.0
    ensures Textured(st, Cut(st, p, a, b))
    ensures !st.smooth ==> Cut(st, p, a, b).c == b.c
    ensures !st.texturing ==> Cut(st, p, a, b).t == Unset
  {
    CutParameter(p, a.vc, b.vc);
    CutOnEdge(p, a.vc, b.vc);
    t := ClipFunc(p, a.vc, b.vc).1;
  }

  /** Exactly when the parameter of an intersection names a point of the edge.
      With eps > 0 the outcode may call a vertex inside that is beyond the
      plane, and then the parameter can leave the edge. */
  lemma CutOnEdgeIff(p: nat, a: Vec4, b: Vec4)
    requires p < 6
    requires Dist(a, p) != Dist(b, p)
    ensures var t := ClipFunc(p, a, b).1;
            0.0 <= t < 1.0 <==> (Dist(a, p) >= 0.0 > Dist(b, p)) || (Dist(a, p) <= 0.0 < Dist(b, p))
  {
    RatioInUnit(Dist(a, p), Dist(b, p), ClipFunc(p, a, b).1);
  }

  lemma RatioInUnit(da: real, db: real, t: real)
    requires da != db && t == (-da) / (db - da)
    ensures 0.0 <= t < 1.0 <==> (da >= 0.0 > db) || (da <= 0.0 < db)
  {
    if da > db {
      ScaledRatio(da, da - db, t);
    } else {
      ScaledRatio(-da, db - da, t);
    }
  }

  lemma ScaledRatio(n: real, d: real, t: real)
    requires d > 0.0 && t * d == n
    ensures t >= 0.0 <==> n >= 0.0
    ensures t < 1.0 <==> n < d
  {
    SignOfProduct(t, d);
    SignOfProduct(1.0 - t, d);
    assert (1.0 - t) * d == d - n;
  }

  lemma ProductNonNegative(x: real, y: real)
    requires x >= 0.0 && y >= 0.0
    ensures x * y >= 0.0
  {
  }

  lemma SignOfProduct(t: real, d: real)
    requires d > 0.0
    ensures t >= 0.0 <==> t * d >= 0.0
    ensures t > 0.0 <==> t * d > 0.0
  {
  }
}
