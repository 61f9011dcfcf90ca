/**
 Orientation and signed area through the clipper (eps == 0).  The determinant
 of the (x, y, w) rows is the homogeneous form of the quantity fragmentCull
 tests.  Each split shares the determinant of its triangle between the kept
 and the discarded pieces, so that clipping conserves signed area and never
 changes a culling decision.
 */
module ClipArea {
  import opened ClipGeometry
  import opened TriangleClip
  import opened ClipExact

  // ---------------------------------------------------------------------
  // Determinants
  // ---------------------------------------------------------------------

  function Det(a: Vec4, b: Vec4, c: Vec4): real {
    a.x * (b.y * c.w - b.w * c.y) - a.y * (b.x * c.w - b.w * c.x) + a.w * (b.x * c.y - b.y * c.x)
  }

  function Area(t: Tri): real { Det(t.v0.vc, t.v1.vc, t.v2.vc) }

  function AreaSum(ts: seq<Tri>): real {
    if ts == [] then 0.0 else Area(ts[0]) + AreaSum(ts[1..])
  }

  lemma {:induction false} AreaSumAppend(a: seq<Tri>, b: seq<Tri>)
    ensures AreaSum(a + b) == AreaSum(a) + AreaSum(b)
  {
    hide Area;
    if a == [] {
      assert a + b == b;
    } else {
      AreaSumAppend(a[1..], b);
      assert (a + b)[1..] == a[1..] + b;
    }
  }

  lemma DetTurns(a: Vec4, b: Vec4, c: Vec4)
    ensures Det(a, b, c) == Det(b, c, a) == Det(c, a, b)
  {
  }

  lemma DetRepeats(a: Vec4, b: Vec4)
    ensures Det(a, a, b) == 0.0 && Det(a, b, b) == 0.0 && Det(a, b, a) == 0.0
  {
  }

  /** n is the point at parameter t from a to b, as far as x, y and w go. */
  ghost predicate Between(n: Vec4, a: Vec4, b: Vec4, t: real) {
    n.x == Lerp(t, a.x, b.x) && n.y == Lerp(t, a.y, b.y) && n.w == Lerp(t, a.w, b.w)
  }

  lemma DetLinear(n: Vec4, a: Vec4, b: Vec4, t: real, u: Vec4, v: Vec4)
    requires Between(n, a, b, t)
    ensures Det(n, u, v) == Lerp(t, Det(a, u, v), Det(b, u, v))
  {
    var px, py, pw := u.y * v.w - u.w * v.y, u.x * v.w - u.w * v.x, u.x * v.y - u.y * v.x;
    DetByMinors(n, u, v, px, py, pw);
    DetByMinors(a, u, v, px, py, pw);
    DetByMinors(b, u, v, px, py, pw);
    hide Det;
    LerpScale(t, a.x, b.x, px);
    LerpScale(t, a.y, b.y, py);
    LerpScale(t, a.w, b.w, pw);
  }

  lemma DetByMinors(a: Vec4, u: Vec4, v: Vec4, px: real, py: real, pw: real)
    requires px == u.y * v.w - u.w * v.y && py == u.x * v.w - u.w * v.x && pw == u.x * v.y - u.y * v.x
    ensures Det(a, u, v) == a.x * px - a.y * py + a.w * pw
  {
  }

  lemma LerpScale(t: real, a: real, b: real, s: real)
    ensures Lerp(t, a, b) * s == a * s + (b * s - a * s) * t
  {
  }

  // ---------------------------------------------------------------------
  // One split
  // ---------------------------------------------------------------------

  /** The part of t that the split at plane p throws away. */
  function CutOff(st: State, t: Tri, p: nat, outside: bool): seq<Tri>
    requires p < 6
  {
    var n1, n2 := New1(st, t, p, outside), New2(st, t, p, outside);
    if outside then [Tri(t.v0, n1, n2)] else [Tri(n1, t.v1, t.v2), Tri(n1, t.v2, n2)]
  }

  /** d is a share of e: between 0 and e. */
  ghost predicate Share(d: real, e: real) {
    0.0 <= d <= e || e <= d <= 0.0
  }

  lemma ShareTransitive(e: real)
    ensures Share(e, e)
    ensures forall c, d | Share(c, d) && Share(d, e) :: Share(c, e)
  {
  }

  lemma SignOfLerp(t: real, d: real)
    ensures d != 0.0 && t > 0.0 ==> Lerp(t, 0.0, d) != 0.0
    ensures d != 0.0 && t < 1.0 ==> Lerp(t, d, 0.0) != 0.0
  {
    if d > 0.0 {
      SignOfProduct(t, d);
      SignOfProduct(1.0 - t, d);
    } else if d < 0.0 {
      SignOfProduct(t, -d);
      SignOfProduct(1.0 - t, -d);
    }
    assert Lerp(t, 0.0, d) == t * d && Lerp(t, d, 0.0) == (1.0 - t) * d;
  }

  lemma LerpShare(t: real, d: real, e: real)
    requires 0.0 <= t <= 1.0 && Share(d, e)
    ensures Share(Lerp(t, 0.0, d), e) && Share(Lerp(t, d, 0.0), e)
    ensures Lerp(t, 0.0, d) + Lerp(t, d, 0.0) == d
    ensures d != 0.0 && t > 0.0 ==> Lerp(t, 0.0, d) != 0.0
    ensures d != 0.0 && t < 1.0 ==> Lerp(t, d, 0.0) != 0.0
  {
    SignOfLerp(t, d);
    var x := t * d;
    assert Lerp(t, 0.0, d) == x && Lerp(t, d, 0.0) == d - x;
    if d >= 0.0 {
      ProductNonNegative(t, d);
      ProductNonNegative(1.0 - t, d);
      assert (1.0 - t) * d == d - x;
    } else {
      ProductNonNegative(t, -d);
      ProductNonNegative(1.0 - t, -d);
      assert t * -d == -x && (1.0 - t) * -d == x - d;
    }
  }

  /** v0 outside, ni on the edges from vi towards v0. */
  lemma OuterAreas(v0: Vec4, v1: Vec4, v2: Vec4, n1: Vec4, n2: Vec4, t1: real, t2: real)
    requires Between(n1, v1, v0, t1) && Between(n2, v2, v0, t2)
    requires 0.0 <= t1 <= 1.0 && 0.0 <= t2 <= 1.0
    ensures var d := Det(v0, v1, v2);
            && Share(Det(n1, v1, v2), d) && Share(Det(n2, n1, v2), d) && Share(Det(v0, n1, n2), d)
            && Det(n1, v1, v2) + Det(n2, n1, v2) + Det(v0, n1, n2) == d
            && (d != 0.0 && t1 > 0.0 ==> Det(n1, v1, v2) != 0.0)
            && (d != 0.0 && t1 < 1.0 && t2 > 0.0 ==> Det(n2, n1, v2) != 0.0)
  {
    var d := Det(v0, v1, v2);
    NearPiece(v1, v0, v2, n1, t1);
    assert Det(n1, v2, v0) == Lerp(t1, d, 0.0) by {
      DetLinear(n1, v1, v0, t1, v2, v0); DetTurns(v0, v1, v2); DetRepeats(v0, v2); hide Det, Lerp;
    }
    assert Det(n2, n1, v2) == Lerp(t2, 0.0, Det(n1, v2, v0)) by {
      DetLinear(n2, v2, v0, t2, n1, v2); DetTurns(n1, v2, v0); DetRepeats(v2, n1); hide Det, Lerp;
    }
    assert Det(v0, n1, n2) == Lerp(t2, Det(n1, v2, v0), 0.0) by {
      DetLinear(n2, v2, v0, t2, v0, n1); DetTurns(v0, n1, n2); DetTurns(n1, v2, v0); DetRepeats(v0, n1); hide Det, Lerp;
    }
    hide Det, Lerp;
    LerpShare(t1, d, d);
    LerpShare(t2, Det(n1, v2, v0), d);
  }

  lemma NearPiece(v1: Vec4, v0: Vec4, v2: Vec4, n1: Vec4, t1: real)
    requires Between(n1, v1, v0, t1)
    ensures Det(n1, v1, v2) == Lerp(t1, 0.0, Det(v0, v1, v2))
  {
    DetLinear(n1, v1, v0, t1, v1, v2); DetRepeats(v1, v2);
  }

  /** v0 inside, ni on the edges from v0 towards vi. */
  lemma InnerAreas(v0: Vec4, v1: Vec4, v2: Vec4, n1: Vec4, n2: Vec4, t1: real, t2: real)
    requires Between(n1, v0, v1, t1) && Between(n2, v0, v2, t2)
    requires 0.0 <= t1 <= 1.0 && 0.0 <= t2 <= 1.0
    ensures var d := Det(v0, v1, v2);
            && Share(Det(v0, n1, n2), d) && Share(Det(n1, v1, v2), d) && Share(Det(n1, v2, n2), d)
            && Det(v0, n1, n2) + Det(n1, v1, v2) + Det(n1, v2, n2) == d
            && (d != 0.0 && t1 > 0.0 && t2 > 0.0 ==> Det(v0, n1, n2) != 0.0)
  {
    var d := Det(v0, v1, v2);
    assert Det(n1, v1, v2) == Lerp(t1, d, 0.0) by {
      DetLinear(n1, v0, v1, t1, v1, v2); DetRepeats(v1, v2); hide Det, Lerp;
    }
    assert Det(n1, v2, v0) == Lerp(t1, 0.0, d) by {
      DetLinear(n1, v0, v1, t1, v2, v0); DetTurns(v0, v1, v2); DetRepeats(v0, v2); hide Det, Lerp;
    }
    assert Det(v0, n1, n2) == Lerp(t2, 0.0, Det(n1, v2, v0)) by {
      DetLinear(n2, v0, v2, t2, v0, n1); DetTurns(v0, n1, n2); DetTurns(n1, v2, v0); DetRepeats(v0, n1); hide Det, Lerp;
    }
    assert Det(n1, v2, n2) == Lerp(t2, Det(n1, v2, v0), 0.0) by {
      DetLinear(n2, v0, v2, t2, n1, v2); DetTurns(n1, v2, n2); DetTurns(n1, v2, v0); DetRepeats(v2, n1); hide Det, Lerp;
    }
    hide Det, Lerp;
    LerpShare(t1, d, d);
    LerpShare(t2, Det(n1, v2, v0), d);
  }

  lemma SplitAreas(st: State, t: Tri, p: nat, outside: bool)
    requires Splits(st, t, p, outside)
    ensures forall j | 0 <= j < |Kept(st, t, p, outside)| :: Share(Area(Kept(st, t, p, outside)[j]), Area(t))
    ensures forall j | 0 <= j < |CutOff(st, t, p, outside)| :: Share(Area(CutOff(st, t, p, outside)[j]), Area(t))
    ensures AreaSum(Kept(st, t, p, outside)) + AreaSum(CutOff(st, t, p, outside)) == Area(t)
  {
    hide Cut, Det, Lerp, Attr, Share, Dist, ProperTri, New1, New2;
    var t1, t2 := EdgeParameters(st, t, p, outside);
    NewBetween(st, t, p, outside, t1, t2);
    var n1, n2 := New1(st, t, p, outside).vc, New2(st, t, p, outside).vc;
    if outside {
      OuterAreas(t.v0.vc, t.v1.vc, t.v2.vc, n1, n2, t1, t2);
      AreaSumTwo(Kept(st, t, p, outside));
    } else {
      InnerAreas(t.v0.vc, t.v1.vc, t.v2.vc, n1, n2, t1, t2);
      AreaSumTwo(CutOff(st, t, p, outside));
    }
  }

  lemma NewBetween(st: State, t: Tri, p: nat, outside: bool, t1: real, t2: real)
    requires p < 6 && NewVertices(st, t, p, outside, t1, t2)
    ensures var n1, n2 := New1(st, t, p, outside).vc, New2(st, t, p, outside).vc;
            if outside then Between(n1, t.v1.vc, t.v0.vc, t1) && Between(n2, t.v2.vc, t.v0.vc, t2)
            else Between(n1, t.v0.vc, t.v1.vc, t1) && Between(n2, t.v0.vc, t.v2.vc, t2)
  {
    hide New1, New2, Lerp;
    assert Interpolated(st, 0) && Interpolated(st, 1) && Interpolated(st, 3);
  }

  /** What is cut off lies beyond the plane it was cut at. */
  lemma CutOffBeyond(st: State, t: Tri, p: nat, outside: bool)
    requires Splits(st, t, p, outside)
    ensures forall j | 0 <= j < |CutOff(st, t, p, outside)| :: Beyond(CutOff(st, t, p, outside)[j], p)
  {
    if outside {
      var t1 := CutInterpolates(st, p, t.v1, t.v0);
      var t2 := CutInterpolates(st, p, t.v2, t.v0);
    } else {
      var t1 := CutInterpolates(st, p, t.v0, t.v1);
      var t2 := CutInterpolates(st, p, t.v0, t.v2);
    }
    hide Cut, Attr, Lerp;
  }

  ghost predicate Beyond(t: Tri, p: nat)
    requires p < 6
  {
    Dist(t.v0.vc, p) <= 0.0 && Dist(t.v1.vc, p) <= 0.0 && Dist(t.v2.vc, p) <= 0.0
  }

  lemma LeadArea(t: Tri, p: nat, outside: bool)
    ensures Area(Lead(t, p, outside)) == Area(t)
  {
    DetTurns(t.v0.vc, t.v1.vc, t.v2.vc);
    hide Det;
  }

  // ---------------------------------------------------------------------
  // The whole recursion
  // ---------------------------------------------------------------------

  /** Everything the recursion does not pass on: the cut-off corners and the
      rejected triangles. */
  function Discarded(st: State, t: Tri, bit: nat): seq<Tri>
    requires bit <= 6
    decreases 6 - bit
  {
    if ClipOr(t).Zero() then []
    else if !ClipAnd(t).Zero() then [t]
    else
      var p := NextBit(ClipOr(t), bit);
      if p == 6 then [t]
      else
        var outside := ClipXor(t, p);
        var lead := Lead(t, p, outside);
        var kept := Kept(st, lead, p, outside);
        CutOff(st, lead, p, outside) + Discarded(st, kept[0], p + 1) +
        (if outside then Discarded(st, kept[1], p + 1) else [])
  }

  lemma DiscardedStep(st: State, t: Tri, bit: nat, p: nat, outside: bool, kept: seq<Tri>)
    requires bit <= 6 && !ClipOr(t).Zero() && ClipAnd(t).Zero()
    requires p == NextBit(ClipOr(t), bit) && p < 6 && outside == ClipXor(t, p)
    requires kept == Kept(st, Lead(t, p, outside), p, outside)
    ensures Discarded(st, t, bit) == CutOff(st, Lead(t, p, outside), p, outside) + Discarded(st, kept[0], p + 1)
                                     + (if outside then Discarded(st, kept[1], p + 1) else [])
  {
    hide ClipXor, Lead, Kept, NextBit, ClipAnd, ClipOr, CutOff;
  }

  lemma NoSplitDiscard(st: State, t: Tri, bit: nat)
    requires bit <= 6
    ensures ClipOr(t).Zero() ==> Discarded(st, t, bit) == []
    ensures !ClipOr(t).Zero() && !ClipAnd(t).Zero() ==> Discarded(st, t, bit) == [t]
  {
  }

  /** Signed area is conserved: emitted plus discarded is the input. */
  lemma {:induction false} ClipConservesArea(st: State, t: Tri, bit: nat)
    requires bit <= 6 && Ready(st, t, bit)
    ensures AreaSum(Clip(st, t, bit)) + AreaSum(Discarded(st, t, bit)) == Area(t)
    decreases 6 - bit
  {
    hide Clip, Discarded, ProperTri, InsideBefore, Kept, Lead, Area, CutOff, Splits, ClipXor, NextBit, Share;
    if ClipOr(t).Zero() || !ClipAnd(t).Zero() {
      NoSplit(st, t, bit);
      NoSplitDiscard(st, t, bit);
    } else {
      var p, outside, kept := SplitStep(st, t, bit);
      var lead := Lead(t, p, outside);
      DiscardedStep(st, t, bit, p, outside, kept);
      SplitAreas(st, lead, p, outside);
      LeadArea(t, p, outside);
      ClipConservesArea(st, kept[0], p + 1);
      var cut, d0 := CutOff(st, lead, p, outside), Discarded(st, kept[0], p + 1);
      AreaSumAppend(cut, d0);
      if outside {
        ClipConservesArea(st, kept[1], p + 1);
        AreaSumAppend(cut + d0, Discarded(st, kept[1], p + 1));
        AreaSumAppend(Clip(st, kept[0], p + 1), Clip(st, kept[1], p + 1));
        assert AreaSum(kept) == Area(kept[0]) + Area(kept[1]) by { AreaSumTwo(kept); }
      } else {
        assert cut + d0 + [] == cut + d0;
        assert AreaSum(kept) == Area(kept[0]);
      }
    }
  }

  lemma AreaSumTwo(ts: seq<Tri>)
    requires |ts| == 2
    ensures AreaSum(ts) == Area(ts[0]) + Area(ts[1])
  {
    hide Area;
    assert ts[1..] == [ts[1]] && ts[1..][1..] == [];
    assert AreaSum(ts[1..]) == Area(ts[1..][0]) + AreaSum(ts[1..][1..]);
  }

  /** Every emitted triangle keeps the orientation of the input, with at most
      its area. */
  lemma {:induction false} EmittedShare(st: State, t: Tri, bit: nat, r: Tri)
    requires bit <= 6 && Ready(st, t, bit) && r in Clip(st, t, bit)
    ensures Share(Area(r), Area(t))
    decreases 6 - bit
  {
    hide Clip, ProperTri, InsideBefore, Kept, Lead, Area;
    if ClipOr(t).Zero() || !ClipAnd(t).Zero() {
      NoSplit(st, t, bit);
    } else {
      var p, outside, kept := SplitStep(st, t, bit);
      var j := if r in Clip(st, kept[0], p + 1) then 0 else 1;
      EmittedShare(st, kept[j], p + 1, r);
      SplitAreas(st, Lead(t, p, outside), p, outside);
      LeadArea(t, p, outside);
    }
  }

  /** Everything discarded keeps the orientation too, and lies beyond one of
      the planes: no area of the view volume is thrown away. */
  lemma {:induction false} DiscardedShare(st: State, t: Tri, bit: nat, r: Tri) returns (q: nat)
    requires bit <= 6 && Ready(st, t, bit) && r in Discarded(st, t, bit)
    ensures Share(Area(r), Area(t))
    ensures q < 6 && Beyond(r, q)
    decreases 6 - bit
  {
    hide Discarded, ProperTri, InsideBefore, Kept, Lead, Area, CutOff, Beyond, Share, Splits, ClipXor, NextBit, ClipOr, ClipAnd;
    ShareTransitive(Area(t));
    if ClipOr(t).Zero() || !ClipAnd(t).Zero() {
      NoSplitDiscard(st, t, bit);
      q := RejectedBeyond(st, t);
    } else {
      var p, outside, kept := SplitStep(st, t, bit);
      var lead := Lead(t, p, outside);
      DiscardedStep(st, t, bit, p, outside, kept);
      SplitAreas(st, lead, p, outside);
      LeadArea(t, p, outside);
      if r in CutOff(st, lead, p, outside) {
        CutOffBeyond(st, lead, p, outside);
        q := p;
      } else {
        var j := if r in Discarded(st, kept[0], p + 1) then 0 else 1;
        q := DiscardedShare(st, kept[j], p + 1, r);
      }
    }
  }

  lemma RejectedBeyond(st: State, t: Tri) returns (q: nat)
    requires st.eps == 0.0 && ProperTri(st, t) && !ClipAnd(t).Zero()
    ensures q < 6 && Beyond(t, q)
  {
    var o := ClipAnd(t);
    q := if o.b0 then 0 else if o.b1 then 1 else if o.b2 then 2
         else if o.b3 then 3 else if o.b4 then 4 else 5;
    OutcodesAreDistances(st, t, q);
  }

  // ---------------------------------------------------------------------
  // Culling
  // ---------------------------------------------------------------------

  function Vnz(a: Ndc, b: Ndc, c: Ndc): real
    requires a.Ndc? && b.Ndc? && c.Ndc?
  {
    (a.x - c.x) * (b.y - c.y) - (a.y - c.y) * (b.x - c.x)
  }

  /** fragmentCull: does the triangle go on to the rasterizer?  When a vertex
      has w == 0 its device coordinates are NaN, every comparison is false and
      only GL_FRONT_AND_BACK stops the triangle. */
  predicate PassesCull(st: State, t: Tri) {
    if t.v0.vd.Ndc? && t.v1.vd.Ndc? && t.v2.vd.Ndc? then
      var vnz := Vnz(t.v0.vd, t.v1.vd, t.v2.vd);
      vnz != 0.0 && !Culled(st, vnz)
    else !(st.culling && st.cullMode == FrontAndBack)
  }

  predicate Culled(st: State, vnz: real) {
    st.culling &&
    match st.cullMode
    case Back => vnz < 0.0
    case Front => vnz > 0.0
    case FrontAndBack => true
  }

  /** The orientations that are kept: counter-clockwise is positive and front. */
  predicate Faces(st: State, area: real) {
    !st.culling || (st.cullMode == Back && area >= 0.0) || (st.cullMode == Front && area <= 0.0)
  }

  /** Twice the signed area of the triangle in device coordinates, as OpenGL
      1.2.1 section 3.5.1 sums it up. */
  function WindowArea(t: Tri): real
    requires t.v0.vc.w != 0.0 && t.v1.vc.w != 0.0 && t.v2.vc.w != 0.0
  {
    var x0, y0 := t.v0.vc.x / t.v0.vc.w, t.v0.vc.y / t.v0.vc.w;
    var x1, y1 := t.v1.vc.x / t.v1.vc.w, t.v1.vc.y / t.v1.vc.w;
    var x2, y2 := t.v2.vc.x / t.v2.vc.w, t.v2.vc.y / t.v2.vc.w;
    x0 * y1 - x1 * y0 + x1 * y2 - x2 * y1 + x2 * y0 - x0 * y2
  }

  /** fragmentCull drops triangles without area, with GL_BACK the clockwise
      ones, with GL_FRONT the counter-clockwise ones, and with
      GL_FRONT_AND_BACK all. */
  lemma CullByWindowArea(st: State, t: Tri)
    requires InFront(t)
    requires t.v0.vd == ClipToNDev(t.v0.vc) && t.v1.vd == ClipToNDev(t.v1.vc) && t.v2.vd == ClipToNDev(t.v2.vc)
    ensures !st.culling ==> (PassesCull(st, t) <==> WindowArea(t) != 0.0)
    ensures st.culling && st.cullMode == Back ==> (PassesCull(st, t) <==> WindowArea(t) > 0.0)
    ensures st.culling && st.cullMode == Front ==> (PassesCull(st, t) <==> WindowArea(t) < 0.0)
    ensures st.culling && st.cullMode == FrontAndBack ==> !PassesCull(st, t)
  {
    WindowIsVnz(t);
    hide WindowArea, Vnz;
  }

  /** The perspective division; the fourth component is the inverse of w. */
  lemma Divide(v: Vec4)
    requires v.w != 0.0
    ensures var d := ClipToNDev(v);
            d.Ndc? && d.x == v.x / v.w && d.y == v.y / v.w && d.z == v.z / v.w && d.inv * v.w == 1.0
  {
  }

  /** The determinant is the device-space cross product scaled by the w's. */
  lemma DetIsVnz(a: Vec4, b: Vec4, c: Vec4)
    requires a.w > 0.0 && b.w > 0.0 && c.w > 0.0
    ensures Det(a, b, c) == a.w * (b.w * (c.w * Vnz(ClipToNDev(a), ClipToNDev(b), ClipToNDev(c))))
  {
    var x, y, z := ClipToNDev(a), ClipToNDev(b), ClipToNDev(c);
    var a', b', c' := Flat(x), Flat(y), Flat(z);
    ScaledBy(a);
    ScaledBy(b);
    ScaledBy(c);
    DetScale(a', b, c, a.w);
    DetTurns(a', b, c);
    DetScale(b', c, a', b.w);
    DetTurns(b', c, a');
    DetScale(c', a', b', c.w);
    DetTurns(c', a', b');
    assert Det(a', b', c') == Vnz(x, y, z) by { FlatDet(x, y, z); }
    hide Det, Vnz, Flat, Scale, ClipToNDev;
  }

  function Flat(d: Ndc): Vec4
    requires d.Ndc?
  {
    Vec4(d.x, d.y, 0.0, 1.0)
  }

  lemma FlatDet(x: Ndc, y: Ndc, z: Ndc)
    requires x.Ndc? && y.Ndc? && z.Ndc?
    ensures Det(Flat(x), Flat(y), Flat(z)) == Vnz(x, y, z)
  {
  }

  /** v scaled by s, as far as x, y and w go. */
  ghost predicate Scale(v: Vec4, u: Vec4, s: real) {
    v.x == u.x * s && v.y == u.y * s && v.w == u.w * s
  }

  lemma ScaledBy(v: Vec4)
    requires v.w > 0.0
    ensures ClipToNDev(v).Ndc? && Scale(v, Flat(ClipToNDev(v)), v.w)
  {
    var inv := 1.0 / v.w;
    assert inv * v.w == 1.0;
    assert (v.x * inv) * v.w == v.x * (inv * v.w);
    assert (v.y * inv) * v.w == v.y * (inv * v.w);
  }

  lemma DetScale(u: Vec4, b: Vec4, c: Vec4, s: real)
    ensures forall v | Scale(v, u, s) :: Det(v, b, c) == s * Det(u, b, c)
  {
  }

  lemma VnzSign(a: Vec4, b: Vec4, c: Vec4)
    requires a.w > 0.0 && b.w > 0.0 && c.w > 0.0
    ensures var d, v := Det(a, b, c), Vnz(ClipToNDev(a), ClipToNDev(b), ClipToNDev(c));
            (d > 0.0 <==> v > 0.0) && (d < 0.0 <==> v < 0.0)
  {
    DetIsVnz(a, b, c);
    hide Det, Vnz, ClipToNDev;
    var v := Vnz(ClipToNDev(a), ClipToNDev(b), ClipToNDev(c));
    SignOfProduct(v, c.w);
    SignOfProduct(c.w * v, b.w);
    SignOfProduct(b.w * (c.w * v), a.w);
  }

  predicate InFront(t: Tri) { t.v0.vc.w > 0.0 && t.v1.vc.w > 0.0 && t.v2.vc.w > 0.0 }

  /** Clipping never changes a culling decision.  A piece in front of the eye
      is passed on exactly if it is not degenerate and the determinant of the
      input triangle has a sign that is not culled; when the input is itself in
      front of the eye, that is the decision for the unclipped triangle.  Any
      other piece has a vertex with w == 0, so it has no area; its comparisons
      are all false, and only GL_FRONT_AND_BACK culls it. */
  lemma CullUnchanged(st: State, t: Tri, bit: nat, r: Tri)
    requires bit <= 6 && Ready(st, t, bit) && r in Clip(st, t, bit)
    ensures PassesCull(st, r) <==>
            if InFront(r) then Area(r) != 0.0 && Faces(st, Area(t))
            else !(st.culling && st.cullMode == FrontAndBack)
    ensures !InFront(r) ==> Area(r) == 0.0
    ensures InFront(t) && InFront(r) ==>
              (PassesCull(st, r) <==>
               Area(r) != 0.0 &&
               Faces(st, WindowArea(t)))
  {
    hide Clip, InsideBefore, Vnz, Culled, Faces, WindowArea, Share, ProperTri;
    EmittedInside(st, t, bit, r);
    DeviceCoordinates(st, t, bit, r);
    if InFront(r) {
      CullInFront(st, t, bit, r);
    }
  }

  lemma CullInFront(st: State, t: Tri, bit: nat, r: Tri)
    requires bit <= 6 && Ready(st, t, bit) && r in Clip(st, t, bit) && InFront(r)
    ensures PassesCull(st, r) <==> Area(r) != 0.0 && Faces(st, Area(t))
    ensures InFront(t) ==> (PassesCull(st, r) <==> Area(r) != 0.0 && Faces(st, WindowArea(t)))
  {
    hide Clip, InsideBefore, Area, WindowArea, ProperTri, PassesCull, ClipToNDev;
    EmittedShare(st, t, bit, r);
    DeviceCoordinates(st, t, bit, r);
    CullByWindowArea(st, r);
    WindowSign(r);
    if InFront(t) { WindowSign(t); }
  }

  /** In front of the eye, the determinant has the sign of the area on screen. */
  lemma WindowSign(t: Tri)
    requires InFront(t)
    ensures (Area(t) > 0.0 <==> WindowArea(t) > 0.0) && (Area(t) < 0.0 <==> WindowArea(t) < 0.0)
  {
    VnzSign(t.v0.vc, t.v1.vc, t.v2.vc);
    WindowIsVnz(t);
    hide Det, Vnz, WindowArea;
  }

  lemma WindowIsVnz(t: Tri)
    requires InFront(t)
    ensures Vnz(ClipToNDev(t.v0.vc), ClipToNDev(t.v1.vc), ClipToNDev(t.v2.vc)) == WindowArea(t)
  {
    Divide(t.v0.vc);
    Divide(t.v1.vc);
    Divide(t.v2.vc);
    hide ClipToNDev;
  }

  lemma DeviceCoordinates(st: State, t: Tri, bit: nat, r: Tri)
    requires bit <= 6 && Ready(st, t, bit) && r in Clip(st, t, bit)
    ensures r.v0.vd == ClipToNDev(r.v0.vc) && r.v1.vd == ClipToNDev(r.v1.vc) && r.v2.vd == ClipToNDev(r.v2.vc)
  {
    hide Clip, InsideBefore, GetClipFlags, ClipToNDev;
    EmittedInside(st, t, bit, r);
    ClipBound(st, t, bit);
    var j :| 0 <= j < |Clip(st, t, bit)| && Clip(st, t, bit)[j] == r;
  }
}
