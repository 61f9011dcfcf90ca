/**
 Clipping is exact (eps == 0).  A point of a triangle is given by its
 barycentric weights; the interpolated fragment at that point is the list of
 its clip coordinates, colour and texture coordinates.  The fragments of the
 emitted triangles are exactly the fragments of the input triangle that lie
 in the view volume.
 */
module ClipExact {
  import opened ClipGeometry
  import opened TriangleClip

  datatype Bary = Bary(a: real, b: real, c: real)

  ghost predicate Convex(k: Bary) {
    k.a >= 0.0 && k.b >= 0.0 && k.c >= 0.0 && k.a + k.b + k.c == 1.0
  }

  function Mix(k: Bary, x: real, y: real, z: real): real {
    k.a * x + k.b * y + k.c * z
  }

  /** Quantity i of the fragment of t at weights k. */
  function FragAt(t: Tri, k: Bary, i: nat): real {
    Mix(k, Attr(t.v0, i), Attr(t.v1, i), Attr(t.v2, i))
  }

  /** The fragment of t at k and that of u at m are the same. */
  ghost predicate SameFragment(st: State, t: Tri, k: Bary, u: Tri, m: Bary) {
    forall i: nat | Interpolated(st, i) :: FragAt(t, k, i) == FragAt(u, m, i)
  }

  function PosAt(t: Tri, k: Bary): Vec4 {
    Vec4(FragAt(t, k, 0), FragAt(t, k, 1), FragAt(t, k, 2), FragAt(t, k, 3))
  }

  ghost predicate Visible(t: Tri, k: Bary) {
    InsideAll(PosAt(t, k))
  }

  // ---------------------------------------------------------------------
  // Weights
  // ---------------------------------------------------------------------

  lemma DistAt(t: Tri, k: Bary, p: nat)
    requires p < 6
    ensures Dist(PosAt(t, k), p) == Mix(k, Dist(t.v0.vc, p), Dist(t.v1.vc, p), Dist(t.v2.vc, p))
  {
  }

  lemma MixNonNegative(k: Bary, x: real, y: real, z: real)
    requires Convex(k) && x >= 0.0 && y >= 0.0 && z >= 0.0
    ensures Mix(k, x, y, z) >= 0.0
  {
    ProductNonNegative(k.a, x);
    ProductNonNegative(k.b, y);
    ProductNonNegative(k.c, z);
  }

  lemma MixNegative(k: Bary, x: real, y: real, z: real)
    requires Convex(k) && x < 0.0 && y < 0.0 && z < 0.0
    ensures Mix(k, x, y, z) < 0.0
  {
    var top := if x > y then (if x > z then x else z) else (if y > z then y else z);
    MixNonNegative(k, top - x, top - y, top - z);
    assert Mix(k, top - x, top - y, top - z) == (k.a + k.b + k.c) * top - Mix(k, x, y, z);
  }

  /** Weights over the pieces of a triangle with v0 outside: (n1, v1, v2) if
      `first`, else (n2, n1, v2), where ni = vi + ti*(v0 - vi). */
  function Outer(first: bool, t1: real, t2: real, m: Bary): Bary {
    if first then Bary(m.a * t1, m.a * (1.0 - t1) + m.b, m.c)
    else Bary(m.a * t2 + m.b * t1, m.b * (1.0 - t1), m.a * (1.0 - t2) + m.c)
  }

  /** Weights over (v0, n1, n2), where ni = v0 + ti*(vi - v0). */
  function Inner(t1: real, t2: real, m: Bary): Bary {
    Bary(m.a + m.b * (1.0 - t1) + m.c * (1.0 - t2), m.b * t1, m.c * t2)
  }

  lemma OuterMix(first: bool, t1: real, t2: real, m: Bary, x0: real, x1: real, x2: real)
    ensures Mix(Outer(first, t1, t2, m), x0, x1, x2)
         == if first then Mix(m, Lerp(t1, x1, x0), x1, x2)
            else Mix(m, Lerp(t2, x2, x0), Lerp(t1, x1, x0), x2)
  {
  }

  lemma InnerMix(t1: real, t2: real, m: Bary, x0: real, x1: real, x2: real)
    ensures Mix(Inner(t1, t2, m), x0, x1, x2) == Mix(m, x0, Lerp(t1, x0, x1), Lerp(t2, x0, x2))
  {
  }

  lemma OuterConvex(first: bool, t1: real, t2: real, m: Bary)
    requires Convex(m) && 0.0 <= t1 <= 1.0 && 0.0 <= t2 <= 1.0
    ensures Convex(Outer(first, t1, t2, m))
  {
    ProductNonNegative(m.a, t1);
    ProductNonNegative(m.a, 1.0 - t1);
    ProductNonNegative(m.b, t1);
    ProductNonNegative(m.b, 1.0 - t1);
    ProductNonNegative(m.a, t2);
    ProductNonNegative(m.a, 1.0 - t2);
  }

  lemma InnerConvex(t1: real, t2: real, m: Bary)
    requires Convex(m) && 0.0 <= t1 <= 1.0 && 0.0 <= t2 <= 1.0
    ensures Convex(Inner(t1, t2, m))
  {
    ProductNonNegative(m.b, t1);
    ProductNonNegative(m.b, 1.0 - t1);
    ProductNonNegative(m.c, t2);
    ProductNonNegative(m.c, 1.0 - t2);
  }

  /** Weights of a point on the near side of the line through n1 and v2. */
  lemma FindFirst(d0: real, d1: real, t1: real, k: Bary) returns (m: Bary)
    requires d0 < 0.0 <= d1 && t1 * (d1 - d0) == d1 && 0.0 <= t1 < 1.0
    requires Convex(k) && k.a * d0 + k.b * d1 >= 0.0
    ensures Convex(m)
    ensures m.a * t1 == k.a && m.a * (1.0 - t1) + m.b == k.b && m.c == k.c
  {
    if t1 == 0.0 {
      if k.a > 0.0 { SignOfProduct(k.a, -d0); }
      m := k;
    } else {
      var n := k.b * t1 - k.a * (1.0 - t1);
      assert n * (d1 - d0) == k.a * d0 + k.b * d1;
      SignOfProduct(n, d1 - d0);
      var alpha, beta := k.a / t1, n / t1;
      Quotient(k.a, t1);
      Quotient(n, t1);
      assert (alpha * (1.0 - t1) + beta - k.b) * t1 == 0.0;
      m := Bary(alpha, beta, k.c);
    }
  }

  lemma Quotient(n: real, d: real)
    requires n >= 0.0 && d > 0.0
    ensures n / d >= 0.0 && (n / d) * d == n
  {
  }

  /** Weights of a point on the far side, inside the plane. */
  lemma FindSecond(d0: real, d1: real, d2: real, t1: real, t2: real, k: Bary) returns (m: Bary)
    requires d0 < 0.0 <= d1 && t1 * (d1 - d0) == d1 && 0.0 <= t1 < 1.0
    requires 0.0 <= d2 && t2 * (d2 - d0) == d2 && 0.0 < t2 < 1.0
    requires Convex(k) && Mix(k, d0, d1, d2) >= 0.0 && k.a * d0 + k.b * d1 <= 0.0
    ensures Convex(m) && Outer(false, t1, t2, m) == k
  {
    var s := k.a * d0 + k.b * d1;
    var beta, u := PastFirst(d0, d1, t1, k);
    FarWeights(d0, d2, t2, u, k.c, s);
    var alpha := u / t2;
    Quotient(u, t2);
    m := Bary(alpha, beta, k.c - alpha * (1.0 - t2));
    OuterRecovers(t1, t2, k, m);
    hide Outer;
  }

  /** The weight of the first new vertex, and what is left for the second. */
  lemma PastFirst(d0: real, d1: real, t1: real, k: Bary) returns (beta: real, u: real)
    requires d0 < 0.0 <= d1 && t1 * (d1 - d0) == d1 && 0.0 <= t1 < 1.0
    requires Convex(k) && k.a * d0 + k.b * d1 <= 0.0
    ensures beta >= 0.0 && beta * (1.0 - t1) == k.b && u == k.a - beta * t1
    ensures u >= 0.0 && u * -d0 == -(k.a * d0 + k.b * d1)
  {
    var r1 := 1.0 - t1;
    beta := k.b / r1;
    Quotient(k.b, r1);
    u := k.a - beta * t1;
    SolveU(d0, d1, t1, k, beta);
    SignOfProduct(u, -d0);
  }

  lemma OuterRecovers(t1: real, t2: real, k: Bary, m: Bary)
    requires Convex(k) && m.b * (1.0 - t1) == k.b && m.a * t2 == k.a - m.b * t1
    requires m.c == k.c - m.a * (1.0 - t2)
    ensures Outer(false, t1, t2, m) == k && m.a + m.b + m.c == 1.0
  {
    var x, y := m.a * t2, m.b * t1;
    assert m.b * (1.0 - t1) == m.b - y;
    assert m.a * (1.0 - t2) == m.a - x;
    var o := Outer(false, t1, t2, m);
    assert o.a == x + y && o.b == m.b - y && o.c == m.a - x + m.c;
  }

  lemma SolveU(d0: real, d1: real, t1: real, k: Bary, beta: real)
    requires t1 * (d1 - d0) == d1 && beta * (1.0 - t1) == k.b
    ensures (k.a - beta * t1) * -d0 == -(k.a * d0 + k.b * d1)
  {
    assert beta * t1 * d0 == -(k.b * d1) by {
      assert t1 * d0 == -(1.0 - t1) * d1;
      assert beta * (t1 * d0) == -(beta * (1.0 - t1)) * d1;
    }
  }

  lemma FarWeights(d0: real, d2: real, t2: real, u: real, c: real, s: real)
    requires d0 < 0.0 <= d2 && t2 * (d2 - d0) == d2 && 0.0 < t2 < 1.0
    requires u >= 0.0 && u * -d0 == -s && s <= 0.0 && c >= 0.0 && s + c * d2 >= 0.0
    ensures c - (u / t2) * (1.0 - t2) >= 0.0
  {
    var n := c * t2 - u * (1.0 - t2);
    assert n * (d2 - d0) == s + c * d2 by {
      assert (1.0 - t2) * (d2 - d0) == -d0;
      assert c * (t2 * (d2 - d0)) == c * d2;
      assert u * ((1.0 - t2) * (d2 - d0)) == -s;
    }
    SignOfProduct(n, d2 - d0);
    Quotient(u, t2);
    assert (c - (u / t2) * (1.0 - t2)) * t2 == n;
    SignOfProduct(c - (u / t2) * (1.0 - t2), t2);
  }

  /** Weights over (v0, n1, n2) when only v0 is inside. */
  lemma FindInner(d0: real, d1: real, d2: real, t1: real, t2: real, k: Bary) returns (m: Bary)
    requires d0 >= 0.0 > d1 && 0.0 > d2
    requires t1 * (d0 - d1) == d0 && t2 * (d0 - d2) == d0 && 0.0 <= t1 < 1.0 && 0.0 <= t2 < 1.0
    requires Convex(k) && Mix(k, d0, d1, d2) >= 0.0
    ensures Convex(m) && Inner(t1, t2, m) == k
  {
    if d0 == 0.0 {
      OnlyInsideVertex(d1, d2, k);
      m := k;
    } else {
      SignOfProduct(t1, d0 - d1);
      SignOfProduct(t2, d0 - d2);
      var beta, gamma := k.b / t1, k.c / t2;
      Quotient(k.b, t1);
      Quotient(k.c, t2);
      RemainingWeight(d0, d1, d2, t1, t2, k, beta, gamma);
      m := Bary(1.0 - beta - gamma, beta, gamma);
      InnerRecovers(t1, t2, k, m);
    }
  }

  lemma OnlyInsideVertex(d1: real, d2: real, k: Bary)
    requires d1 < 0.0 && d2 < 0.0 && Convex(k) && Mix(k, 0.0, d1, d2) >= 0.0
    ensures k == Bary(1.0, 0.0, 0.0)
  {
    ProductNonNegative(k.b, -d1);
    ProductNonNegative(k.c, -d2);
    if k.b > 0.0 { SignOfProduct(k.b, -d1); }
    if k.c > 0.0 { SignOfProduct(k.c, -d2); }
  }

  lemma RemainingWeight(d0: real, d1: real, d2: real, t1: real, t2: real, k: Bary, beta: real, gamma: real)
    requires d0 > 0.0 && t1 * (d0 - d1) == d0 && t2 * (d0 - d2) == d0
    requires beta * t1 == k.b && gamma * t2 == k.c
    requires Convex(k) && Mix(k, d0, d1, d2) >= 0.0
    ensures 1.0 - beta - gamma >= 0.0
  {
    ScaledWeight(beta, t1, d0 - d1, d0, k.b);
    ScaledWeight(gamma, t2, d0 - d2, d0, k.c);
    assert (1.0 - beta - gamma) * d0 == d0 - k.b * (d0 - d1) - k.c * (d0 - d2);
    assert d0 - k.b * (d0 - d1) - k.c * (d0 - d2) == Mix(k, d0, d1, d2) by {
      assert (k.a + k.b + k.c) * d0 == d0;
    }
    SignOfProduct(1.0 - beta - gamma, d0);
  }

  lemma ScaledWeight(beta: real, t: real, e: real, d: real, b: real)
    requires t * e == d && beta * t == b
    ensures beta * d == b * e
  {
    assert beta * (t * e) == (beta * t) * e;
  }

  lemma InnerRecovers(t1: real, t2: real, k: Bary, m: Bary)
    requires m.b * t1 == k.b && m.c * t2 == k.c && m.a == 1.0 - m.b - m.c && Convex(k)
    ensures Inner(t1, t2, m) == k
  {
    assert m.b * (1.0 - t1) == m.b - m.b * t1;
    assert m.c * (1.0 - t2) == m.c - m.c * t2;
  }

  // ---------------------------------------------------------------------
  // One split
  // ---------------------------------------------------------------------

  /** Every fragment of a kept piece is a fragment of the triangle. */
  lemma SplitSound(st: State, t: Tri, p: nat, outside: bool, j: nat, m: Bary) returns (k: Bary)
    requires Splits(st, t, p, outside) && j < |Kept(st, t, p, outside)| && Convex(m)
    ensures Convex(k) && SameFragment(st, t, k, Kept(st, t, p, outside)[j], m)
  {
    var t1, t2 := EdgeParameters(st, t, p, outside);
    var piece := Kept(st, t, p, outside)[j];
    k := if outside then Outer(j == 0, t1, t2, m) else Inner(t1, t2, m);
    hide Cut, Outer, Inner;
    if outside { OuterConvex(j == 0, t1, t2, m); } else { InnerConvex(t1, t2, m); }
    forall i: nat | Interpolated(st, i) ensures FragAt(t, k, i) == FragAt(piece, m, i) {
      PieceFragment(st, t, p, outside, j, t1, t2, m, i);
    }
  }

  /** The parameters of the two new vertices, by distances. */
  lemma EdgeParameters(st: State, t: Tri, p: nat, outside: bool) returns (t1: real, t2: real)
    requires Splits(st, t, p, outside)
    ensures 0.0 <= t1 < 1.0 && 0.0 <= t2 < 1.0
    ensures NewVertices(st, t, p, outside, t1, t2)
    ensures var d0, d1, d2 := Dist(t.v0.vc, p), Dist(t.v1.vc, p), Dist(t.v2.vc, p);
            if outside then t1 * (d1 - d0) == d1 && t2 * (d2 - d0) == d2
            else t1 * (d0 - d1) == d0 && t2 * (d0 - d2) == d0
  {
    hide Cut, ClipFunc, Lerp, Attr, Dist, GetClipFlags, Interpolated;
    if outside {
      t1 := CutInterpolates(st, p, t.v1, t.v0);
      t2 := CutInterpolates(st, p, t.v2, t.v0);
    } else {
      t1 := CutInterpolates(st, p, t.v0, t.v1);
      t2 := CutInterpolates(st, p, t.v0, t.v2);
    }
  }

  ghost predicate NewVertices(st: State, t: Tri, p: nat, outside: bool, t1: real, t2: real)
    requires p < 6
  {
    forall i: nat | Interpolated(st, i) ::
      && Attr(New1(st, t, p, outside), i)
         == (if outside then Lerp(t1, Attr(t.v1, i), Attr(t.v0, i)) else Lerp(t1, Attr(t.v0, i), Attr(t.v1, i)))
      && Attr(New2(st, t, p, outside), i)
         == (if outside then Lerp(t2, Attr(t.v2, i), Attr(t.v0, i)) else Lerp(t2, Attr(t.v0, i), Attr(t.v2, i)))
  }

  lemma PieceFragment(st: State, t: Tri, p: nat, outside: bool, j: nat, t1: real, t2: real, m: Bary, i: nat)
    requires p < 6 && j < |Kept(st, t, p, outside)| && Interpolated(st, i)
    requires NewVertices(st, t, p, outside, t1, t2)
    ensures FragAt(t, if outside then Outer(j == 0, t1, t2, m) else Inner(t1, t2, m), i)
         == FragAt(Kept(st, t, p, outside)[j], m, i)
  {
    hide Cut, New1, New2, Attr, Interpolated;
    var x0, x1, x2 := Attr(t.v0, i), Attr(t.v1, i), Attr(t.v2, i);
    if outside {
      OuterMix(j == 0, t1, t2, m, x0, x1, x2);
    } else {
      InnerMix(t1, t2, m, x0, x1, x2);
    }
  }

  /** Every fragment inside the plane is a fragment of a kept piece. */
  lemma SplitComplete(st: State, t: Tri, p: nat, outside: bool, k: Bary) returns (j: nat, m: Bary)
    requires Splits(st, t, p, outside) && Convex(k) && Dist(PosAt(t, k), p) >= 0.0
    ensures j < |Kept(st, t, p, outside)|
    ensures Convex(m) && SameFragment(st, t, k, Kept(st, t, p, outside)[j], m)
  {
    hide Cut, Outer, Inner, Dist, Attr, Mix, Lerp, PosAt, GetClipFlags, New1, New2, ProperTri;
    var t1, t2 := EdgeParameters(st, t, p, outside);
    DistAt(t, k, p);
    j, m := FindPiece(Dist(t.v0.vc, p), Dist(t.v1.vc, p), Dist(t.v2.vc, p), outside, t1, t2, k);
    var piece := Kept(st, t, p, outside)[j];
    forall i: nat | Interpolated(st, i) ensures FragAt(t, k, i) == FragAt(piece, m, i) {
      PieceFragment(st, t, p, outside, j, t1, t2, m, i);
    }
  }

  lemma FindPiece(d0: real, d1: real, d2: real, outside: bool, t1: real, t2: real, k: Bary)
    returns (j: nat, m: Bary)
    requires 0.0 <= t1 < 1.0 && 0.0 <= t2 < 1.0
    requires if outside then d0 < 0.0 <= d1 && 0.0 <= d2 && t1 * (d1 - d0) == d1 && t2 * (d2 - d0) == d2
             else d1 < 0.0 <= d0 && d2 < 0.0 && t1 * (d0 - d1) == d0 && t2 * (d0 - d2) == d0
    requires Convex(k) && Mix(k, d0, d1, d2) >= 0.0
    ensures j < (if outside then 2 else 1) && Convex(m)
    ensures k == if outside then Outer(j == 0, t1, t2, m) else Inner(t1, t2, m)
  {
    j := 0;
    if !outside {
      m := FindInner(d0, d1, d2, t1, t2, k);
    } else if k.a * d0 + k.b * d1 >= 0.0 {
      m := FindFirst(d0, d1, t1, k);
    } else {
      j := 1;
      ScaledRatio(d2, d2 - d0, t2);
      assert d2 > 0.0;
      SignOfProduct(t2, d2 - d0);
      m := FindSecond(d0, d1, d2, t1, t2, k);
    }
  }

  // ---------------------------------------------------------------------
  // Rearranging
  // ---------------------------------------------------------------------

  function TurnWeights(k: Bary): Bary { Bary(k.b, k.c, k.a) }

  /** Weights over Lead(t) for weights over t. */
  function LeadWeights(t: Tri, p: nat, outside: bool, k: Bary): Bary {
    if t.v0.clip.Bit(p) == outside then k
    else if t.v1.clip.Bit(p) == outside then TurnWeights(k)
    else TurnWeights(TurnWeights(k))
  }

  function UnleadWeights(t: Tri, p: nat, outside: bool, k: Bary): Bary {
    if t.v0.clip.Bit(p) == outside then k
    else if t.v1.clip.Bit(p) == outside then TurnWeights(TurnWeights(k))
    else TurnWeights(k)
  }

  lemma LeadSame(st: State, t: Tri, p: nat, outside: bool, k: Bary)
    requires Convex(k)
    ensures Convex(LeadWeights(t, p, outside, k)) && Convex(UnleadWeights(t, p, outside, k))
    ensures SameFragment(st, t, k, Lead(t, p, outside), LeadWeights(t, p, outside, k))
    ensures SameFragment(st, t, UnleadWeights(t, p, outside, k), Lead(t, p, outside), k)
  {
    hide Attr;
  }

  lemma SameVisible(st: State, t: Tri, k: Bary, u: Tri, m: Bary)
    requires SameFragment(st, t, k, u, m)
    ensures PosAt(t, k) == PosAt(u, m) && (Visible(t, k) <==> Visible(u, m))
  {
    assert forall i: nat | i < 4 :: Interpolated(st, i);
  }

  // ---------------------------------------------------------------------
  // The whole recursion
  // ---------------------------------------------------------------------

  /** Nothing is added: a fragment of an emitted triangle is a fragment of the
      input triangle, with the same position, colour and texture. */
  lemma {:induction false} ClipSound(st: State, t: Tri, bit: nat, r: Tri, m: Bary) returns (k: Bary)
    requires bit <= 6 && Ready(st, t, bit) && r in Clip(st, t, bit) && Convex(m)
    ensures Convex(k) && SameFragment(st, t, k, r, m)
    decreases 6 - bit
  {
    hide Clip, ProperTri, InsideBefore, Kept, Lead, Attr, UnleadWeights;
    if ClipOr(t).Zero() || !ClipAnd(t).Zero() {
      NoSplit(st, t, bit);
      k := m;
    } else {
      var p, outside, kept := SplitStep(st, t, bit);
      var j: nat := if r in Clip(st, kept[0], p + 1) then 0 else 1;
      var m1 := ClipSound(st, kept[j], p + 1, r, m);
      var m2 := SplitSound(st, Lead(t, p, outside), p, outside, j, m1);
      LeadSame(st, t, p, outside, m2);
      k := UnleadWeights(t, p, outside, m2);
    }
  }

  /** A triangle that is rejected has no visible fragment. */
  lemma RejectIsInvisible(st: State, t: Tri, k: Bary)
    requires st.eps == 0.0 && ProperTri(st, t) && Convex(k) && !ClipAnd(t).Zero()
    ensures !Visible(t, k)
  {
    var o := ClipAnd(t);
    var p := if o.b0 then 0 else if o.b1 then 1 else if o.b2 then 2
             else if o.b3 then 3 else if o.b4 then 4 else 5;
    OutcodesAreDistances(st, t, p);
    DistAt(t, k, p);
    MixNegative(k, Dist(t.v0.vc, p), Dist(t.v1.vc, p), Dist(t.v2.vc, p));
  }

  /** Nothing is lost: a visible fragment is a fragment of an emitted triangle. */
  lemma {:induction false} ClipComplete(st: State, t: Tri, bit: nat, k: Bary) returns (r: Tri, m: Bary)
    requires bit <= 6 && Ready(st, t, bit) && Convex(k) && Visible(t, k)
    ensures r in Clip(st, t, bit) && Convex(m) && SameFragment(st, t, k, r, m)
    decreases 6 - bit
  {
    hide Clip, ProperTri, InsideBefore, Kept, Lead, Attr, LeadWeights;
    if ClipOr(t).Zero() {
      NoSplit(st, t, bit);
      r, m := t, k;
    } else {
      if !ClipAnd(t).Zero() { RejectIsInvisible(st, t, k); }
      var p, outside, kept := SplitStep(st, t, bit);
      var lead, k1 := Lead(t, p, outside), LeadWeights(t, p, outside, k);
      LeadSame(st, t, p, outside, k);
      SameVisible(st, t, k, lead, k1);
      var j, k2 := SplitComplete(st, lead, p, outside, k1);
      SameVisible(st, lead, k1, kept[j], k2);
      r, m := ClipComplete(st, kept[j], p + 1, k2);
    }
  }

  ghost predicate Emitted(st: State, t: Tri, bit: nat, k: Bary)
    requires bit <= 6
  {
    exists r, m :: r in Clip(st, t, bit) && Convex(m) && SameFragment(st, t, k, r, m)
  }

  /** The emitted triangles show exactly the visible part of the input. */
  lemma ClipIsExact(st: State, t: Tri, bit: nat, k: Bary)
    requires bit <= 6 && Ready(st, t, bit) && Convex(k)
    ensures Visible(t, k) <==> Emitted(st, t, bit, k)
  {
    hide Clip, Attr, ProperTri, InsideBefore;
    if Visible(t, k) {
      var r, m := ClipComplete(st, t, bit, k);
    }
    if Emitted(st, t, bit, k) {
      var r, m :| r in Clip(st, t, bit) && Convex(m) && SameFragment(st, t, k, r, m);
      EmittedVisible(st, t, bit, r, m);
      SameVisible(st, t, k, r, m);
    }
  }

  /** Every point of every emitted triangle lies in all six half-spaces. */
  lemma EmittedVisible(st: State, t: Tri, bit: nat, r: Tri, m: Bary)
    requires bit <= 6 && Ready(st, t, bit) && r in Clip(st, t, bit) && Convex(m)
    ensures Visible(r, m)
  {
    hide Clip, ProperTri;
    EmittedInside(st, t, bit, r);
    forall p: nat | p < 6 ensures Dist(PosAt(r, m), p) >= 0.0 {
      DistAt(r, m, p);
      MixNonNegative(m, Dist(r.v0.vc, p), Dist(r.v1.vc, p), Dist(r.v2.vc, p));
    }
  }
}
