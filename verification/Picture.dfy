/**
 From the vertex stream to the rasterizer (eps == 0): what CRenderer hands to
 the rasterizer between glBegin and glEnd are visible fragments of OpenGL
 triangles of the stream that are not culled, and all of them, except for
 triangles without area or that only touch the view volume.
 */
module Picture {
  import opened ClipGeometry
  import opened TriangleClip
  import opened ClipExact
  import opened ClipArea
  import opened ClipInterior
  import opened Renderer

  lemma {:induction false} PassedIs(st: State, ts: seq<Tri>, r: Tri)
    ensures r in Passed(st, ts) <==> r in ts && PassesCull(st, r)
  {
    hide PassesCull;
    if ts != [] {
      PassedIs(st, ts[1..], r);
      assert ts == [ts[0]] + ts[1..];
    }
  }

  /** The rasterizer received the pieces of the primitives that pass the
      culling test. */
  lemma {:induction false} RasteredIs(st: State, ps: seq<Primitive>, r: Tri)
    ensures r in Rastered(st, ps) <==> (exists p | p in ps :: r in Clip(st, TriOf(p), 0)) && PassesCull(st, r)
  {
    hide Clip, PassesCull, Passed;
    if ps != [] {
      var last := |ps| - 1;
      RasteredIs(st, ps[..last], r);
      PassedIs(st, Clip(st, TriOf(ps[last]), 0), r);
      assert ps == ps[..last] + [ps[last]];
    }
  }

  /** Under smooth shading, vertices that arrive unlit are lit exactly once,
      however many triangles they take part in. */
  lemma LitOnce(light: Lighting, mode: Mode, stream: seq<Slot>, i: nat)
    requires InRange(|stream|, Assembly(mode, |stream|)) && i < |Assembly(mode, |stream|)|
    requires forall s | s in stream :: !s.processed
    ensures var t := Assembly(mode, |stream|)[i];
            t.a < |stream| && t.b < |stream| && t.c < |stream| &&
            Primitives(light, true, mode, stream, Assembly(mode, |stream|))[i] ==
            Primitive(Lit(light, stream[t.a]), Lit(light, stream[t.b]), Lit(light, stream[t.c]))
  {
    hide Assembly, Completed;
    var t := Assembly(mode, |stream|)[i];
    assert t in Assembly(mode, |stream|);
  }

  /** Under flat shading the third vertex of every triangle is lit, once; a
      separate triangle has no other lit vertex. */
  lemma LitFlat(light: Lighting, mode: Mode, stream: seq<Slot>, i: nat)
    requires InRange(|stream|, Assembly(mode, |stream|)) && i < |Assembly(mode, |stream|)|
    requires forall s | s in stream :: !s.processed
    ensures var t, p := Assembly(mode, |stream|)[i], Primitives(light, false, mode, stream, Assembly(mode, |stream|))[i];
            t.a < |stream| && t.b < |stream| && t.c < |stream| && p.c == Lit(light, stream[t.c]) &&
            (mode == Triangles ==> p.a == stream[t.a] && p.b == stream[t.b])
  {
    var t := Assembly(mode, |stream|)[i];
    assert t in Assembly(mode, |stream|);
    ThirdCompletes(mode, |stream|, i);
    hide Assembly, Completed;
  }

  lemma ThirdCompletes(mode: Mode, n: nat, i: nat)
    requires i < |Assembly(mode, n)|
    ensures var t := Assembly(mode, n)[i];
            Completed(mode, t.c) != [] && (mode == Triangles ==> Completed(mode, t.a) == [] && Completed(mode, t.b) == [])
  {
  }

  /** Strips and fans: the first triangle is (0, 1, 2), each next one brings in
      the next vertex and shares an edge with the one before, run through in the
      opposite direction, so that all have the same orientation. */
  lemma SharedEdges(mode: Mode, n: nat, i: nat)
    requires mode == TriangleStrip || mode == TriangleFan || mode == Polygon
    requires i + 1 < |Assembly(mode, n)|
    ensures |Assembly(mode, n)| == n - 2 && Assembly(mode, n)[0] == Triple(0, 1, 2)
    ensures var t, u := Assembly(mode, n)[i], Assembly(mode, n)[i + 1];
            && u.c == i + 3
            && Opposite(t, u)
            && (mode != TriangleStrip ==> t.a == 0 && u.a == 0)
  {
  }

  /** The two triangles run through a common edge in opposite directions. */
  predicate Opposite(t: Triple, u: Triple) {
    var es := {(t.a, t.b), (t.b, t.c), (t.c, t.a)};
    (u.b, u.a) in es || (u.c, u.b) in es || (u.a, u.c) in es
  }

  function Lit(light: Lighting, s: Slot): Slot { s.(v := s.v.(c := light(s)), processed := true) }

  // ---------------------------------------------------------------------
  // The picture
  // ---------------------------------------------------------------------

  /** The fragment of primitive p at weights k is the fragment of r at m. */
  ghost predicate Shows(st: State, p: Primitive, k: Bary, r: Tri, m: Bary) {
    Convex(k) && Convex(m) && Visible(TriOf(p), k) && SameFragment(st, TriOf(p), k, r, m)
  }

  /** Nothing visible is missing: every visible fragment of a primitive that
      has area and reaches properly into the view volume, or lies in the plane of
      one of its faces and reaches into that, is shown by a triangle the
      rasterizer received, exactly if the primitive is not culled. */
  lemma VisibleIsDrawn(st: State, ps: seq<Primitive>, p: Primitive, k: Bary, i: Bary) returns (r: Tri, m: Bary)
    requires p in ps && Ready(st, TriOf(p), 0) && Area(TriOf(p)) != 0.0
    requires Convex(k) && Visible(TriOf(p), k) && Convex(i) && Interior(TriOf(p), i)
    ensures Shows(st, p, k, r, m) && Area(r) != 0.0
    ensures r in Rastered(st, ps) <==>
            || !st.culling
            || (st.cullMode == Back && Area(TriOf(p)) > 0.0)
            || (st.cullMode == Front && Area(TriOf(p)) < 0.0)
  {
    hide Clip, ProperTri, Area, PassesCull, Rastered, SameFragment, TriOf, Interior;
    r, m := ClipProper(st, TriOf(p), 0, k, i);
    RasteredIs(st, ps, r);
    CullDecision(st, TriOf(p), 0, r);
  }

  /** Every visible fragment of any primitive, also of one without area or one
      that only touches the view volume, belongs to a piece; the piece is
      dropped exactly by culling or for want of area. */
  lemma VisibleIsKept(st: State, ps: seq<Primitive>, p: Primitive, k: Bary) returns (r: Tri, m: Bary)
    requires p in ps && Ready(st, TriOf(p), 0) && Convex(k) && Visible(TriOf(p), k)
    ensures Shows(st, p, k, r, m)
    ensures r in Rastered(st, ps) <==> Drawable(st, p, r)
  {
    hide Clip, ProperTri, Area, PassesCull, Rastered, SameFragment, TriOf, InFront;
    r, m := ClipComplete(st, TriOf(p), 0, k);
    RasteredIs(st, ps, r);
    CullDecision(st, TriOf(p), 0, r);
  }

  /** Does a piece r of p survive?  The test for area is lost on pieces with a
      vertex at w == 0. */
  ghost predicate Drawable(st: State, p: Primitive, r: Tri) {
    Faces(st, Area(TriOf(p))) && (InFront(r) ==> Area(r) != 0.0)
  }

  /** Nothing else is drawn: every fragment of every triangle the rasterizer
      received is a visible fragment of a primitive that is not culled. */
  lemma DrawnIsVisible(st: State, ps: seq<Primitive>, r: Tri, m: Bary) returns (p: Primitive, k: Bary)
    requires forall q | q in ps :: Ready(st, TriOf(q), 0)
    requires r in Rastered(st, ps) && Convex(m)
    ensures p in ps && Shows(st, p, k, r, m)
    ensures Drawable(st, p, r)
  {
    hide Clip, ProperTri, Area, PassesCull, Rastered, SameFragment, TriOf, Visible;
    RasteredIs(st, ps, r);
    p :| p in ps && r in Clip(st, TriOf(p), 0);
    CullDecision(st, TriOf(p), 0, r);
    k := ClipSound(st, TriOf(p), 0, r, m);
    EmittedVisible(st, TriOf(p), 0, r, m);
    SameVisible(st, TriOf(p), k, r, m);
  }
}
