/**
 Clipping and area together (eps == 0).  A triangle with area that reaches
 properly into the view volume, or into one of its faces if it lies in the plane
 of that face, is shown by pieces with area: every visible fragment of it, also
 on the border of the volume or on a cut, belongs to an emitted triangle that is
 not degenerate.
 */
module ClipInterior {
  import opened ClipGeometry
  import opened TriangleClip
  import opened ClipExact
  import opened ClipArea

  /** The whole triangle lies in plane p. */
  ghost predicate FlatIn(t: Tri, p: nat)
    requires p < 6
  {
    Dist(t.v0.vc, p) == 0.0 && Dist(t.v1.vc, p) == 0.0 && Dist(t.v2.vc, p) == 0.0
  }

  /** The fragment lies strictly inside all six planes, except those the whole
      triangle lies in. */
  ghost predicate Interior(t: Tri, k: Bary) {
    forall p: nat | p < 6 :: FlatIn(t, p) || Dist(PosAt(t, k), p) > 0.0
  }

  // ---------------------------------------------------------------------
  // Moving towards an interior point
  // ---------------------------------------------------------------------

  function Towards(k: Bary, i: Bary, s: real): Bary {
    Bary(Lerp(s, k.a, i.a), Lerp(s, k.b, i.b), Lerp(s, k.c, i.c))
  }

  lemma TowardsConvex(k: Bary, i: Bary, s: real)
    requires Convex(k) && Convex(i) && 0.0 <= s <= 1.0
    ensures Convex(Towards(k, i, s))
  {
    LerpNonNegative(s, k.a, i.a);
    LerpNonNegative(s, k.b, i.b);
    LerpNonNegative(s, k.c, i.c);
  }

  lemma TowardsMix(k: Bary, i: Bary, s: real, x: real, y: real, z: real)
    ensures Mix(Towards(k, i, s), x, y, z) == Lerp(s, Mix(k, x, y, z), Mix(i, x, y, z))
  {
  }

  lemma LerpPositive(s: real, a: real, b: real)
    requires 0.0 < s <= 1.0 && a >= 0.0 && b > 0.0
    ensures Lerp(s, a, b) > 0.0
  {
    ProductNonNegative(1.0 - s, a);
    SignOfProduct(b, s);
    assert Lerp(s, a, b) == (1.0 - s) * a + b * s;
  }

  lemma TowardsInterior(t: Tri, k: Bary, i: Bary, s: real)
    requires Visible(t, k) && Interior(t, i) && 0.0 < s <= 1.0
    ensures Interior(t, Towards(k, i, s))
  {
    forall p: nat | p < 6 && !FlatIn(t, p) ensures Dist(PosAt(t, Towards(k, i, s)), p) > 0.0 {
      DistAt(t, k, p);
      DistAt(t, i, p);
      DistAt(t, Towards(k, i, s), p);
      TowardsMix(k, i, s, Dist(t.v0.vc, p), Dist(t.v1.vc, p), Dist(t.v2.vc, p));
      LerpPositive(s, Dist(PosAt(t, k), p), Dist(PosAt(t, i), p));
    }
  }

  /** Where the way from a value f towards g of the other sign crosses zero. */
  lemma Crossing(f: real, g: real) returns (s: real)
    requires (f > 0.0 > g) || (f < 0.0 < g)
    ensures 0.0 < s < 1.0 && Lerp(s, f, g) == 0.0
  {
    s := f / (f - g);
    assert s * (f - g) == f;
    if f > 0.0 {
      SignOfProduct(s, f - g);
      ScaledRatio(f, f - g, s);
    } else {
      assert s * (g - f) == -f;
      SignOfProduct(s, g - f);
      ScaledRatio(-f, g - f, s);
    }
  }

  /** A side of the line through a new vertex and v2 on which both k and a
      point on the way to i lie; a * d0 + b * d1 tells the side. */
  lemma CommonSide(d0: real, d1: real, k: Bary, i: Bary) returns (near: bool, s: real)
    requires Convex(k) && Convex(i)
    ensures 0.0 < s <= 1.0 && Convex(Towards(k, i, s))
    ensures var n := Towards(k, i, s);
            if near then k.a * d0 + k.b * d1 >= 0.0 && n.a * d0 + n.b * d1 >= 0.0
            else k.a * d0 + k.b * d1 <= 0.0 && n.a * d0 + n.b * d1 <= 0.0
  {
    var f, g := Mix(k, d0, d1, 0.0), Mix(i, d0, d1, 0.0);
    near := f > 0.0 || (f == 0.0 && g >= 0.0);
    s := 1.0;
    if (f > 0.0 > g) || (f < 0.0 < g) {
      s := Crossing(f, g);
    }
    TowardsConvex(k, i, s);
    TowardsMix(k, i, s, d0, d1, 0.0);
  }

  /** The weights of k and of an interior point on the way to i in one piece
      with area. */
  lemma FindProper(d0: real, d1: real, d2: real, outside: bool, t1: real, t2: real, k: Bary, i: Bary)
    returns (j: nat, m: Bary, s: real, mi: Bary)
    requires 0.0 <= t1 < 1.0 && 0.0 <= t2 < 1.0
    requires if outside then d0 < 0.0 <= d1 && 0.0 <= d2 && t1 * (d1 - d0) == d1 && t2 * (d2 - d0) == d2
             else d1 < 0.0 <= d0 && d2 < 0.0 && t1 * (d0 - d1) == d0 && t2 * (d0 - d2) == d0
    requires Convex(k) && Convex(i) && Mix(k, d0, d1, d2) >= 0.0 && Mix(i, d0, d1, d2) > 0.0
    ensures j < (if outside then 2 else 1) && Convex(m) && Convex(mi) && 0.0 < s <= 1.0
    ensures k == if outside then Outer(j == 0, t1, t2, m) else Inner(t1, t2, m)
    ensures Towards(k, i, s) == if outside then Outer(j == 0, t1, t2, mi) else Inner(t1, t2, mi)
    ensures if outside then (if j == 0 then t1 > 0.0 else t2 > 0.0) else t1 > 0.0 && t2 > 0.0
  {
    if outside {
      j, m, s, mi := FindProperOuter(d0, d1, d2, t1, t2, k, i);
    } else {
      j, s := 0, 1.0;
      if d0 == 0.0 { OnlyInsideVertex(d1, d2, i); }
      SignOfProduct(t1, d0 - d1);
      SignOfProduct(t2, d0 - d2);
      m := FindInner(d0, d1, d2, t1, t2, k);
      mi := FindInner(d0, d1, d2, t1, t2, i);
      hide Inner, Mix;
    }
  }

  lemma FindProperOuter(d0: real, d1: real, d2: real, t1: real, t2: real, k: Bary, i: Bary)
    returns (j: nat, m: Bary, s: real, mi: Bary)
    requires 0.0 <= t1 < 1.0 && 0.0 <= t2 < 1.0
    requires d0 < 0.0 <= d1 && 0.0 <= d2 && t1 * (d1 - d0) == d1 && t2 * (d2 - d0) == d2
    requires Convex(k) && Convex(i) && Mix(k, d0, d1, d2) >= 0.0 && Mix(i, d0, d1, d2) > 0.0
    ensures j < 2 && Convex(m) && Convex(mi) && 0.0 < s <= 1.0
    ensures k == Outer(j == 0, t1, t2, m) && Towards(k, i, s) == Outer(j == 0, t1, t2, mi)
    ensures if j == 0 then t1 > 0.0 else t2 > 0.0
  {
    SignOfProduct(t1, d1 - d0);
    SignOfProduct(t2, d2 - d0);
    SomeAbove(d0, d1, d2, i);
    var near;
    near, s := CommonSide(d0, d1, k, i);
    var n := Towards(k, i, s);
    assert Mix(n, d0, d1, d2) >= 0.0 by {
      TowardsMix(k, i, s, d0, d1, d2);
      LerpPositive(s, Mix(k, d0, d1, d2), Mix(i, d0, d1, d2));
    }
    NoFarSide(d0, d1, d2, k);
    NoFarSide(d0, d1, d2, n);
    hide Outer, Mix, Towards, Lerp;
    if t2 == 0.0 || (near && t1 > 0.0) {
      j := 0;
      m := FindFirst(d0, d1, t1, k);
      mi := FindFirst(d0, d1, t1, n);
      FirstIsOuter(t1, t2, k, m);
      FirstIsOuter(t1, t2, n, mi);
    } else {
      j := 1;
      NoNearSide(d0, d1, k);
      NoNearSide(d0, d1, n);
      m := FindSecond(d0, d1, d2, t1, t2, k);
      mi := FindSecond(d0, d1, d2, t1, t2, n);
    }
  }

  lemma FirstIsOuter(t1: real, t2: real, k: Bary, m: Bary)
    requires m.a * t1 == k.a && m.a * (1.0 - t1) + m.b == k.b && m.c == k.c
    ensures Outer(true, t1, t2, m) == k
  {
  }

  lemma SomeAbove(d0: real, d1: real, d2: real, i: Bary)
    requires Convex(i) && d0 < 0.0 && Mix(i, d0, d1, d2) > 0.0
    ensures d1 > 0.0 || d2 > 0.0
  {
    ProductNonNegative(i.a, -d0);
    if d1 <= 0.0 { ProductNonNegative(i.b, -d1); }
    if d2 <= 0.0 { ProductNonNegative(i.c, -d2); }
  }

  /** With v2 on the plane nothing inside lies on the far side ... */
  lemma NoFarSide(d0: real, d1: real, d2: real, k: Bary)
    requires Mix(k, d0, d1, d2) >= 0.0
    ensures d2 == 0.0 ==> k.a * d0 + k.b * d1 >= 0.0
  {
  }

  /** ... and with v1 on the plane nothing inside on the near side. */
  lemma NoNearSide(d0: real, d1: real, k: Bary)
    requires Convex(k) && d0 < 0.0
    ensures d1 == 0.0 ==> k.a * d0 + k.b * d1 <= 0.0
  {
    ProductNonNegative(k.a, -d0);
  }

  // ---------------------------------------------------------------------
  // One split, and the whole recursion
  // ---------------------------------------------------------------------

  /** A visible fragment and an interior one: one kept piece with area has the
      first and some interior fragment too. */
  lemma SplitProper(st: State, t: Tri, p: nat, outside: bool, k: Bary, i: Bary) returns (j: nat, m: Bary, mi: Bary)
    requires Splits(st, t, p, outside) && Area(t) != 0.0
    requires Convex(k) && Visible(t, k) && Convex(i) && Interior(t, i)
    ensures j < |Kept(st, t, p, outside)| && Area(Kept(st, t, p, outside)[j]) != 0.0
    ensures Convex(m) && SameFragment(st, t, k, Kept(st, t, p, outside)[j], m)
    ensures Convex(mi) && Interior(Kept(st, t, p, outside)[j], mi)
  {
    hide Cut, Outer, Inner, Attr, PosAt, Visible, Interior, FlatIn, Area, Towards, NewVertices, Kept, SameFragment, Convex, ProperTri;
    var t1, t2, s;
    t1, t2, j, m, s, mi := ProperWeights(st, t, p, outside, k, i);
    PieceSame(st, t, p, outside, j, t1, t2, k, m);
    PieceSame(st, t, p, outside, j, t1, t2, Towards(k, i, s), mi);
    TowardsInterior(t, k, i, s);
    forall q: nat | q < 6 && FlatIn(t, q) ensures FlatIn(Kept(st, t, p, outside)[j], q) {
      KeptFlat(st, t, p, outside, t1, t2, j, q);
    }
    SameInterior(st, t, Towards(k, i, s), Kept(st, t, p, outside)[j], mi);
    PieceArea(st, t, p, outside, j, t1, t2);
  }

  lemma ProperWeights(st: State, t: Tri, p: nat, outside: bool, k: Bary, i: Bary)
    returns (t1: real, t2: real, j: nat, m: Bary, s: real, mi: Bary)
    requires Splits(st, t, p, outside)
    requires Convex(k) && Visible(t, k) && Convex(i) && Interior(t, i)
    ensures 0.0 <= t1 < 1.0 && 0.0 <= t2 < 1.0 && NewVertices(st, t, p, outside, t1, t2)
    ensures j < |Kept(st, t, p, outside)| && Convex(m) && Convex(mi) && 0.0 < s <= 1.0
    ensures k == if outside then Outer(j == 0, t1, t2, m) else Inner(t1, t2, m)
    ensures Towards(k, i, s) == if outside then Outer(j == 0, t1, t2, mi) else Inner(t1, t2, mi)
    ensures if outside then (if j == 0 then t1 > 0.0 else t2 > 0.0) else t1 > 0.0 && t2 > 0.0
  {
    hide Outer, Inner, Dist, Mix, Visible, Interior, FlatIn, Towards, NewVertices, Convex, ProperTri, Cut, New1, New2;
    assert !FlatIn(t, p) by { SplitNotFlat(st, t, p, outside); }
    MixesAt(t, k, i, p);
    t1, t2 := EdgeParameters(st, t, p, outside);
    j, m, s, mi := FindProper(Dist(t.v0.vc, p), Dist(t.v1.vc, p), Dist(t.v2.vc, p), outside, t1, t2, k, i);
  }

  lemma SplitNotFlat(st: State, t: Tri, p: nat, outside: bool)
    requires Splits(st, t, p, outside)
    ensures !FlatIn(t, p)
  {
  }

  lemma MixesAt(t: Tri, k: Bary, i: Bary, p: nat)
    requires p < 6 && Visible(t, k) && Interior(t, i) && !FlatIn(t, p)
    ensures Mix(k, Dist(t.v0.vc, p), Dist(t.v1.vc, p), Dist(t.v2.vc, p)) >= 0.0
    ensures Mix(i, Dist(t.v0.vc, p), Dist(t.v1.vc, p), Dist(t.v2.vc, p)) > 0.0
  {
    DistAt(t, k, p);
    DistAt(t, i, p);
    hide Mix, PosAt, Dist;
    assert Dist(PosAt(t, k), p) >= 0.0 && Dist(PosAt(t, i), p) > 0.0;
  }

  lemma PieceSame(st: State, t: Tri, p: nat, outside: bool, j: nat, t1: real, t2: real, k: Bary, m: Bary)
    requires p < 6 && j < |Kept(st, t, p, outside)| && NewVertices(st, t, p, outside, t1, t2)
    requires k == if outside then Outer(j == 0, t1, t2, m) else Inner(t1, t2, m)
    ensures SameFragment(st, t, k, Kept(st, t, p, outside)[j], m)
  {
    hide Cut, New1, New2, Attr, Interpolated, NewVertices, FragAt, Outer, Inner, Kept;
    forall q: nat | Interpolated(st, q) ensures FragAt(t, k, q) == FragAt(Kept(st, t, p, outside)[j], m, q) {
      PieceFragment(st, t, p, outside, j, t1, t2, m, q);
    }
  }

  lemma SameInterior(st: State, t: Tri, k: Bary, u: Tri, m: Bary)
    requires SameFragment(st, t, k, u, m) && Interior(t, k)
    requires forall q: nat | q < 6 && FlatIn(t, q) :: FlatIn(u, q)
    ensures Interior(u, m)
  {
    SameVisible(st, t, k, u, m);
    hide PosAt, SameFragment, Visible, FlatIn;
    assert PosAt(t, k) == PosAt(u, m);
  }

  /** Kept pieces of a triangle that lies in a plane lie in it too. */
  lemma KeptFlat(st: State, t: Tri, p: nat, outside: bool, t1: real, t2: real, j: nat, q: nat)
    requires p < 6 && NewVertices(st, t, p, outside, t1, t2) && j < |Kept(st, t, p, outside)|
    requires q < 6 && FlatIn(t, q)
    ensures FlatIn(Kept(st, t, p, outside)[j], q)
  {
    hide Cut, Attr, Lerp, New1, New2;
    var n1, n2 := New1(st, t, p, outside), New2(st, t, p, outside);
    if outside {
      DistAlongEdge(st, n1, t.v1, t.v0, t1, q);
      DistAlongEdge(st, n2, t.v2, t.v0, t2, q);
    } else {
      DistAlongEdge(st, n1, t.v0, t.v1, t1, q);
      DistAlongEdge(st, n2, t.v0, t.v2, t2, q);
    }
    LerpZero(t1);
    LerpZero(t2);
  }

  lemma LerpZero(t: real)
    ensures Lerp(t, 0.0, 0.0) == 0.0
  {
  }

  lemma PieceArea(st: State, t: Tri, p: nat, outside: bool, j: nat, t1: real, t2: real)
    requires Splits(st, t, p, outside) && Area(t) != 0.0 && j < |Kept(st, t, p, outside)|
    requires 0.0 <= t1 < 1.0 && 0.0 <= t2 < 1.0 && NewVertices(st, t, p, outside, t1, t2)
    requires if outside then (if j == 0 then t1 > 0.0 else t2 > 0.0) else t1 > 0.0 && t2 > 0.0
    ensures Area(Kept(st, t, p, outside)[j]) != 0.0
  {
    hide Cut, Det, Lerp, Attr, Share, Dist, ProperTri, New1, New2, NewVertices;
    NewBetween(st, t, p, outside, t1, t2);
    var n1, n2 := New1(st, t, p, outside).vc, New2(st, t, p, outside).vc;
    if outside {
      OuterAreas(t.v0.vc, t.v1.vc, t.v2.vc, n1, n2, t1, t2);
    } else {
      InnerAreas(t.v0.vc, t.v1.vc, t.v2.vc, n1, n2, t1, t2);
    }
  }

  lemma LeadInterior(st: State, t: Tri, p: nat, outside: bool, k: Bary, i: Bary)
    requires Convex(k) && Visible(t, k) && Convex(i) && Interior(t, i)
    ensures var lead := Lead(t, p, outside);
            && Visible(lead, LeadWeights(t, p, outside, k)) && Interior(lead, LeadWeights(t, p, outside, i))
            && Convex(LeadWeights(t, p, outside, k)) && Convex(LeadWeights(t, p, outside, i))
            && SameFragment(st, t, k, lead, LeadWeights(t, p, outside, k))
  {
    LeadFlat(t, p, outside);
    hide Lead, LeadWeights, Visible, Interior, SameFragment, FlatIn;
    LeadSame(st, t, p, outside, k);
    LeadSame(st, t, p, outside, i);
    SameVisible(st, t, k, Lead(t, p, outside), LeadWeights(t, p, outside, k));
    SameInterior(st, t, i, Lead(t, p, outside), LeadWeights(t, p, outside, i));
  }

  lemma LeadFlat(t: Tri, p: nat, outside: bool)
    ensures forall q: nat | q < 6 && FlatIn(t, q) :: FlatIn(Lead(t, p, outside), q)
  {
    hide Dist;
  }

  /** Every visible fragment of a triangle that has area and an interior
      fragment is a fragment of an emitted triangle with area. */
  lemma {:induction false} ClipProper(st: State, t: Tri, bit: nat, k: Bary, i: Bary) returns (r: Tri, m: Bary)
    requires bit <= 6 && Ready(st, t, bit) && Area(t) != 0.0
    requires Convex(k) && Visible(t, k) && Convex(i) && Interior(t, i)
    ensures r in Clip(st, t, bit) && Convex(m) && SameFragment(st, t, k, r, m) && Area(r) != 0.0
    decreases 6 - bit
  {
    hide Clip, ProperTri, InsideBefore, Kept, Lead, Attr, LeadWeights, Area, Interior, Visible;
    if ClipOr(t).Zero() {
      NoSplit(st, t, bit);
      r, m := t, k;
    } else {
      if !ClipAnd(t).Zero() {
        RejectIsInvisible(st, t, k);
      }
      var p, outside, kept := SplitStep(st, t, bit);
      LeadInterior(st, t, p, outside, k, i);
      LeadArea(t, p, outside);
      var lead, k1 := Lead(t, p, outside), LeadWeights(t, p, outside, k);
      var j, k2, i2 := SplitProper(st, lead, p, outside, k1, LeadWeights(t, p, outside, i));
      SameVisible(st, lead, k1, kept[j], k2);
      r, m := ClipProper(st, kept[j], p + 1, k2, i2);
    }
  }

  // ---------------------------------------------------------------------
  // The origin of clip space
  // ---------------------------------------------------------------------

  const Origin: Vec4 := Vec4(0.0, 0.0, 0.0, 0.0)

  ghost predicate ContainsOrigin(t: Tri) { exists k :: Convex(k) && PosAt(t, k) == Origin }

  lemma MixPositive(k: Bary, x: real, y: real, z: real)
    requires Convex(k) && x > 0.0 && y > 0.0 && z > 0.0
    ensures Mix(k, x, y, z) > 0.0
  {
    MixNegative(k, -x, -y, -z);
    assert Mix(k, -x, -y, -z) == -Mix(k, x, y, z);
  }

  /** The corner of a piece at which w is 0. */
  lemma CornerAtOrigin(r: Tri) returns (m: Bary)
    requires InViewVolume(r.v0) && InViewVolume(r.v1) && InViewVolume(r.v2) && !InFront(r)
    ensures Convex(m) && PosAt(r, m) == Origin
  {
    m := if r.v0.vc.w <= 0.0 then Bary(1.0, 0.0, 0.0)
         else if r.v1.vc.w <= 0.0 then Bary(0.0, 1.0, 0.0) else Bary(0.0, 0.0, 1.0);
  }

  /** Exactly the triangles that contain the origin of clip space have pieces
      with a vertex at w == 0. */
  lemma OriginIff(st: State, t: Tri, bit: nat)
    requires bit <= 6 && Ready(st, t, bit)
    ensures (exists r :: r in Clip(st, t, bit) && !InFront(r)) <==> ContainsOrigin(t)
  {
    hide Clip, ProperTri, InsideBefore, PosAt, SameFragment, InViewVolume;
    if r :| r in Clip(st, t, bit) && !InFront(r) {
      PieceAtOrigin(st, t, bit, r);
    }
    if k :| Convex(k) && PosAt(t, k) == Origin {
      OriginVisible(t, k);
      var r, m := ClipComplete(st, t, bit, k);
      SameVisible(st, t, k, r, m);
      if InFront(r) { FrontMissesOrigin(r, m); }
    }
  }

  lemma PieceAtOrigin(st: State, t: Tri, bit: nat, r: Tri)
    requires bit <= 6 && Ready(st, t, bit) && r in Clip(st, t, bit) && !InFront(r)
    ensures ContainsOrigin(t)
  {
    hide Clip, ProperTri, InsideBefore, PosAt, SameFragment, InViewVolume;
    EmittedInside(st, t, bit, r);
    var m := CornerAtOrigin(r);
    var k := ClipSound(st, t, bit, r, m);
    SameVisible(st, t, k, r, m);
  }

  lemma OriginVisible(t: Tri, k: Bary)
    requires PosAt(t, k) == Origin
    ensures Visible(t, k)
  {
  }

  lemma FrontMissesOrigin(r: Tri, m: Bary)
    requires InFront(r) && Convex(m)
    ensures PosAt(r, m) != Origin
  {
    MixPositive(m, r.v0.vc.w, r.v1.vc.w, r.v2.vc.w);
  }

  /** Such triangles have no area. */
  lemma OriginFlat(t: Tri, k: Bary)
    requires Convex(k) && PosAt(t, k) == Origin
    ensures Area(t) == 0.0
  {
    var a, b, c := t.v0.vc, t.v1.vc, t.v2.vc;
    DetTurns(a, b, c);
    if k.a != 0.0 {
      Dependent(a, b, c, k.a, k.b, k.c);
    } else if k.b != 0.0 {
      Dependent(b, c, a, k.b, k.c, k.a);
    } else {
      Dependent(c, a, b, k.c, k.a, k.b);
    }
  }

  lemma Dependent(a: Vec4, b: Vec4, c: Vec4, x: real, y: real, z: real)
    requires x != 0.0
    requires x * a.x + y * b.x + z * c.x == 0.0 && x * a.y + y * b.y + z * c.y == 0.0 && x * a.w + y * b.w + z * c.w == 0.0
    ensures Det(a, b, c) == 0.0
  {
    var d := Det(a, b, c);
    assert x * d == 0.0 by {
      assert x * d == Det(Vec4(x * a.x, x * a.y, 0.0, x * a.w), b, c);
      assert Det(Vec4(x * a.x, x * a.y, 0.0, x * a.w), b, c) == Det(Vec4(-y * b.x - z * c.x, -y * b.y - z * c.y, 0.0, -y * b.w - z * c.w), b, c);
    }
  }

  /** So clipping never changes a culling decision, without exception; only the
      test for area is lost at w == 0, where every comparison is false. */
  lemma CullDecision(st: State, t: Tri, bit: nat, r: Tri)
    requires bit <= 6 && Ready(st, t, bit) && r in Clip(st, t, bit)
    ensures PassesCull(st, r) <==> Faces(st, Area(t)) && (InFront(r) ==> Area(r) != 0.0)
  {
    hide Clip, ProperTri, InsideBefore, PosAt, Area, PassesCull;
    CullUnchanged(st, t, bit, r);
    if !InFront(r) {
      PieceAtOrigin(st, t, bit, r);
      var k :| Convex(k) && PosAt(t, k) == Origin;
      OriginFlat(t, k);
    }
  }

  /** A triangle without area that reaches the rasterizer: one vertex is at the
      origin. */
  lemma OriginPasses(st: State, t: Tri)
    requires Ready(st, t, 0) && ClipOr(t).Zero() && t.v0.vc == Origin
    ensures Clip(st, t, 0) == [t] && Area(t) == 0.0
    ensures PassesCull(st, t) <==> !(st.culling && st.cullMode == FrontAndBack)
  {
    hide Clip, ProperTri, Area, PassesCull;
    NoSplit(st, t, 0);
    AtFirstVertex(t);
    OriginFlat(t, Bary(1.0, 0.0, 0.0));
    CullUnchanged(st, t, 0, t);
  }

  lemma AtFirstVertex(t: Tri)
    requires t.v0.vc == Origin
    ensures Convex(Bary(1.0, 0.0, 0.0)) && PosAt(t, Bary(1.0, 0.0, 0.0)) == Origin
  {
  }

  lemma OriginWitness(c: Vec4) returns (st: State, t: Tri)
    ensures st.eps == 0.0 && st.culling && st.cullMode == Back && Ready(st, t, 0)
    ensures Clip(st, t, 0) == [t] && Area(t) == 0.0 && PassesCull(st, t)
  {
    st := State(0.0, true, false, true, Back);
    var p, q := Vec4(1.0, 0.0, 0.0, 1.0), Vec4(0.0, 1.0, 0.0, 1.0);
    t := Tri(MakeVertex(st, Origin, c, Unset), MakeVertex(st, p, c, Unset), MakeVertex(st, q, c, Unset));
    hide MakeVertex, GetClipFlags, Proper, PassesCull, Clip, Area;
    InsideVertex(st, Origin, c);
    InsideVertex(st, p, c);
    InsideVertex(st, q, c);
    OriginPasses(st, t);
  }

  lemma InsideVertex(st: State, v: Vec4, c: Vec4)
    requires st.eps == 0.0 && !st.texturing
    requires -v.w <= v.x <= v.w && -v.w <= v.y <= v.w && -v.w <= v.z <= v.w
    ensures var w := MakeVertex(st, v, c, Unset);
            Proper(st, w) && w.clip.Zero() && w.vc == v
  {
  }
}
