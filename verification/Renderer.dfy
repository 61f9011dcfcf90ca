/**
 The drawing half of CRenderer (gl/render.cpp): glBegin .. glEnd, primitive
 assembly over three vertex slots addressed through a permuted table of
 pointers, lighting in place, and the clipper as the recursive procedure that
 feeds the rasterizer.
 */
module Renderer {
  import opened ClipGeometry
  import opened TriangleClip
  import opened ClipArea

  datatype Mode = Triangles | TriangleStrip | TriangleFan | Quads | Polygon | Unsupported

  datatype GlError = NoError | InvalidOperation | InvalidEnum

  /** A vertex in the vertex buffer: eye position and normal feed lighting. */
  datatype Slot = Slot(eye: Vec4, normal: Vec4, v: Vertex, processed: bool)

  /** Three positions in the vertex stream. */
  datatype Triple = Triple(a: nat, b: nat, c: nat)

  /** Three vertices handed to the clipper. */
  datatype Primitive = Primitive(a: Slot, b: Slot, c: Slot)

  // ---------------------------------------------------------------------
  // What OpenGL 1.2.1 section 2.6.1 asks for
  // ---------------------------------------------------------------------

  function AtLeast0(n: int): nat { if n < 0 then 0 else n }

  function SeparateTriangles(n: nat): seq<Triple> {
    seq(n / 3, (i: nat) => Triple(3 * i, 3 * i + 1, 3 * i + 2))
  }

  function Strip(n: nat): seq<Triple> {
    seq(AtLeast0(n - 2), (i: nat) => if i % 2 == 0 then Triple(i, i + 1, i + 2) else Triple(i + 1, i, i + 2))
  }

  function Fan(n: nat): seq<Triple> {
    seq(AtLeast0(n - 2), (i: nat) => Triple(0, i + 1, i + 2))
  }

  /** Two triangles of a fan for every complete quadrilateral. */
  function SeparateQuads(n: nat): seq<Triple> {
    seq(2 * (n / 4), (i: nat) =>
      var q := 4 * (i / 2);
      if i % 2 == 0 then Triple(q, q + 1, q + 2) else Triple(q, q + 2, q + 3))
  }

  /** The triangles of n vertices in the given mode, in order. */
  function OpenGlTriangles(mode: Mode, n: nat): seq<Triple> {
    match mode
    case Triangles => SeparateTriangles(n)
    case TriangleStrip => Strip(n)
    case Quads => SeparateQuads(n)
    case Unsupported => []
    case _ => Fan(n)
  }

  /** What the code assembles for GL_QUADS: after the first quad the flip-flop
      is never set again, and every three further vertices make a triangle. */
  function QuadsAsCoded(n: nat): seq<Triple> {
    if n < 3 then []
    else if n == 3 then [Triple(0, 1, 2)]
    else [Triple(0, 1, 2), Triple(0, 2, 3)] +
         seq((n - 4) / 3, (i: nat) => Triple(3 * i + 4, 3 * i + 5, 3 * i + 6))
  }

  function Assembly(mode: Mode, n: nat): seq<Triple> {
    if mode == Quads then QuadsAsCoded(n) else OpenGlTriangles(mode, n)
  }

  /** GL_QUADS is assembled as OpenGL asks exactly for at most six vertices,
      not counting the incomplete quad of three. */
  lemma QuadsMeetOpenGlIff(n: nat)
    ensures QuadsAsCoded(n) == OpenGlTriangles(Quads, n) <==> n <= 6 && n != 3
  {
    if n == 7 {
      assert |QuadsAsCoded(n)| == 3 && |OpenGlTriangles(Quads, n)| == 2;
    } else if n >= 10 {
      assert QuadsAsCoded(n)[3] == Triple(7, 8, 9);
      assert OpenGlTriangles(Quads, n)[3] == Triple(4, 6, 7);
    } else if n >= 8 {
      assert |QuadsAsCoded(n)| == 3 && |OpenGlTriangles(Quads, n)| == 4;
    }
  }

  lemma EmptyAssembly(mode: Mode)
    ensures Assembly(mode, 0) == []
  {
  }

  /** Every triangle only names vertices already received. */
  lemma AssemblyInRange(mode: Mode, n: nat)
    ensures forall t | t in Assembly(mode, n) :: t.a < n && t.b < n && t.c < n
  {
  }

  /** What one more vertex adds to the assembly. */
  lemma AssemblyStep(mode: Mode, n: nat)
    requires mode != Unsupported
    ensures Assembly(mode, n + 1) == Assembly(mode, n) + Completed(mode, n)
  {
    hide SeparateTriangles, Strip, Fan, SeparateQuads, QuadsAsCoded;
    match mode
    case Triangles => TrianglesStep(n);
    case TriangleStrip => StripStep(n);
    case Quads => QuadsStep(n);
    case _ => FanStep(n);
  }

  lemma TrianglesStep(n: nat)
    ensures SeparateTriangles(n + 1) == SeparateTriangles(n) + (if n % 3 == 2 then [Triple(n - 2, n - 1, n)] else [])
  {
    assert (n + 1) / 3 == n / 3 + (if n % 3 == 2 then 1 else 0);
  }

  lemma StripStep(n: nat)
    ensures Strip(n + 1) == Strip(n) + (if n < 2 then [] else if n % 2 == 0 then [Triple(n - 2, n - 1, n)]
                                        else [Triple(n - 1, n - 2, n)])
  {
  }

  lemma FanStep(n: nat)
    ensures Fan(n + 1) == Fan(n) + (if n < 2 then [] else [Triple(0, n - 1, n)])
  {
  }

  lemma QuadsStep(n: nat)
    ensures QuadsAsCoded(n + 1) == QuadsAsCoded(n) +
            (if n < 2 then [] else if n == 2 then [Triple(0, 1, 2)] else if n == 3 then [Triple(0, 2, 3)]
             else if (n - 4) % 3 == 2 then [Triple(n - 2, n - 1, n)] else [])
  {
    if n >= 4 {
      var c := (n - 4) / 3;
      assert (n - 3) / 3 == c + (if (n - 4) % 3 == 2 then 1 else 0);
      assert (n - 4) % 3 == 2 ==> n - 2 == 3 * c + 4;
    }
  }

  /** The position the next vertex is written to after n vertices. */
  function Position(mode: Mode, n: nat): nat {
    if mode == Triangles then n % 3
    else if mode == Quads && n >= 4 then (n - 4) % 3
    else if n < 2 then n else 2
  }

  /** The vertex that position j < Position(mode, n) points to. */
  function HeldIndex(mode: Mode, n: nat, j: nat): nat
    requires j < Position(mode, n)
  {
    match mode
    case Triangles => n - n % 3 + j
    case TriangleStrip => if (n % 2 == 0) == (j == 0) then n - 2 else n - 1
    case Quads => if n >= 4 then n - (n - 4) % 3 + j else if j == 0 then 0 else n - 1
    case _ => if j == 0 then 0 else n - 1
  }

  /** Do the held vertices come from a triangle that was already handed on? */
  predicate HeldHanded(mode: Mode, n: nat) {
    n >= 3 && mode != Triangles && !(mode == Quads && n >= 4)
  }

  /** The triangle completed by vertex number n, if any. */
  function Completed(mode: Mode, n: nat): seq<Triple> {
    if Position(mode, n) == 2 then [Triple(HeldIndex(mode, n, 0), HeldIndex(mode, n, 1), n)] else []
  }

  // ---------------------------------------------------------------------
  // Lighting
  // ---------------------------------------------------------------------

  type Lighting = Slot -> Vec4

  /** The vertex as fragmentClip leaves it: lit once, unless it was already. */
  function Shaded(light: Lighting, s: Slot): Slot {
    if s.processed then s else s.(v := s.v.(c := light(s)), processed := true)
  }

  /** Vertex number k, received as s, as it is handed to the clipper.  With
      flat shading only vertices that complete a triangle are lit. */
  function Handed(light: Lighting, smooth: bool, mode: Mode, k: nat, s: Slot): Slot {
    if smooth || Completed(mode, k) != [] then Shaded(light, s) else s
  }

  predicate InRange(n: nat, ts: seq<Triple>) {
    forall t | t in ts :: t.a < n && t.b < n && t.c < n
  }

  /** The assembled triangles of a stream, as handed to the clipper. */
  function Primitives(light: Lighting, smooth: bool, mode: Mode, stream: seq<Slot>, ts: seq<Triple>): seq<Primitive>
    requires InRange(|stream|, ts)
  {
    seq(|ts|, (i: nat) requires i < |ts| => PrimitiveOf(light, smooth, mode, stream, ts[i]))
  }

  function PrimitiveOf(light: Lighting, smooth: bool, mode: Mode, stream: seq<Slot>, t: Triple): Primitive
    requires t.a < |stream| && t.b < |stream| && t.c < |stream|
  {
    Primitive(Handed(light, smooth, mode, t.a, stream[t.a]),
              Handed(light, smooth, mode, t.b, stream[t.b]),
              Handed(light, smooth, mode, t.c, stream[t.c]))
  }

  lemma PrimitivesAppend(light: Lighting, smooth: bool, mode: Mode, stream: seq<Slot>, v: Slot,
                         ts: seq<Triple>, us: seq<Triple>)
    requires InRange(|stream|, ts) && InRange(|stream| + 1, us) && InRange(|stream| + 1, ts + us)
    ensures Primitives(light, smooth, mode, stream + [v], ts + us)
         == Primitives(light, smooth, mode, stream, ts) + Primitives(light, smooth, mode, stream + [v], us)
  {
    hide Handed, Completed;
    forall i | 0 <= i < |ts|
      ensures PrimitiveOf(light, smooth, mode, stream + [v], ts[i]) == PrimitiveOf(light, smooth, mode, stream, ts[i])
    {
      assert ts[i] in ts;
    }
    hide PrimitiveOf;
  }

  /** What one more vertex adds to the primitives. */
  lemma PrimitivesStep(light: Lighting, smooth: bool, mode: Mode, stream: seq<Slot>, v: Slot)
    requires mode != Unsupported
    ensures var n := |stream|;
            && InRange(n, Assembly(mode, n)) && InRange(n + 1, Assembly(mode, n + 1))
            && InRange(n + 1, Completed(mode, n))
            && Primitives(light, smooth, mode, stream + [v], Assembly(mode, n + 1))
            == Primitives(light, smooth, mode, stream, Assembly(mode, n)) +
               Primitives(light, smooth, mode, stream + [v], Completed(mode, n))
  {
    hide Assembly, HeldIndex, Primitives;
    var n := |stream|;
    AssemblyInRange(mode, n);
    AssemblyInRange(mode, n + 1);
    AssemblyStep(mode, n);
    PrimitivesAppend(light, smooth, mode, stream, v, Assembly(mode, n), Completed(mode, n));
  }

  // ---------------------------------------------------------------------
  // From primitives to the rasterizer
  // ---------------------------------------------------------------------

  /** The triangles fragmentCull lets through. */
  function Passed(st: State, ts: seq<Tri>): seq<Tri> {
    if ts == [] then []
    else (if PassesCull(st, ts[0]) then [ts[0]] else []) + Passed(st, ts[1..])
  }

  lemma {:induction false} PassedAppend(st: State, a: seq<Tri>, b: seq<Tri>)
    ensures Passed(st, a + b) == Passed(st, a) + Passed(st, b)
  {
    hide PassesCull;
    if a == [] {
      assert a + b == b;
    } else {
      PassedAppend(st, a[1..], b);
      assert (a + b)[1..] == a[1..] + b;
    }
  }

  lemma PassedNothing(st: State)
    ensures Passed(st, []) == []
  {
  }

  /** What one split passes on, from the pieces of the recursive calls. */
  lemma PassedSplit(st: State, t: Tri, bit: nat)
    requires bit <= 6 && !ClipOr(t).Zero() && ClipAnd(t).Zero() && NextBit(ClipOr(t), bit) < 6
    ensures var p := NextBit(ClipOr(t), bit);
            var outside := ClipXor(t, p);
            var kept := Kept(st, Lead(t, p, outside), p, outside);
            Passed(st, Clip(st, t, bit)) ==
            if outside then Passed(st, Clip(st, kept[0], p + 1)) + Passed(st, Clip(st, kept[1], p + 1))
            else Passed(st, Clip(st, kept[0], p + 1))
  {
    hide Clip, Cut, PassesCull, Passed, ClipOr, ClipAnd, ClipXor, Lead, NextBit;
    var p, kept := Unfold(st, t, bit);
    if ClipXor(t, p) { PassedAppend(st, Clip(st, kept[0], p + 1), Clip(st, kept[1], p + 1)); }
  }

  function TriOf(p: Primitive): Tri { Tri(p.a.v, p.b.v, p.c.v) }

  /** Everything a list of primitives sends to the rasterizer. */
  function Rastered(st: State, ps: seq<Primitive>): seq<Tri> {
    if ps == [] then []
    else Rastered(st, ps[..|ps| - 1]) + Passed(st, Clip(st, TriOf(ps[|ps| - 1]), 0))
  }

  lemma {:induction false} RasteredAppend(st: State, ps: seq<Primitive>, qs: seq<Primitive>)
    ensures Rastered(st, ps + qs) == Rastered(st, ps) + Rastered(st, qs)
  {
    hide Clip, Passed, TriOf;
    if qs == [] {
      assert ps + qs == ps;
    } else {
      RasteredAppend(st, ps, qs[..|qs| - 1]);
      assert (ps + qs)[..|ps + qs| - 1] == ps + qs[..|qs| - 1];
    }
  }

  lemma RasteredOne(st: State, p: Primitive)
    ensures Rastered(st, [p]) == Passed(st, Clip(st, TriOf(p), 0))
  {
    hide Clip, Passed, TriOf;
    assert [p][..0] == [];
  }

  lemma PositionRange(mode: Mode, n: nat)
    ensures Position(mode, n) <= 2
    ensures Position(mode, n) < 2 ==> !HeldHanded(mode, n)
    ensures forall j: nat | j < Position(mode, n) :: HeldIndex(mode, n, j) < n
  {
  }

  /** A held vertex, shaded again or not, is the vertex to hand on. */
  lemma Rehanded(light: Lighting, smooth: bool, mode: Mode, n: nat, j: nat, s: Slot)
    requires Position(mode, n) == 2 && j < 2
    ensures var k := HeldIndex(mode, n, j);
            var held := if HeldHanded(mode, n) then Handed(light, smooth, mode, k, s) else s;
            (if smooth then Shaded(light, held) else held) == Handed(light, smooth, mode, k, s)
  {
    hide Shaded, HeldIndex, HeldHanded, Completed;
    assert Shaded(light, Shaded(light, s)) == Shaded(light, s) by { ShadedTwice(light, s); }
    if !HeldHanded(mode, n) { HeldPosition(mode, n, j); }
  }

  lemma ShadedTwice(light: Lighting, s: Slot)
    ensures Shaded(light, Shaded(light, s)) == Shaded(light, s)
  {
  }

  /** Vertices held for the first time did not complete a triangle. */
  lemma HeldPosition(mode: Mode, n: nat, j: nat)
    requires Position(mode, n) == 2 && j < 2 && !HeldHanded(mode, n)
    ensures Completed(mode, HeldIndex(mode, n, j)) == []
  {
    assert Position(mode, HeldIndex(mode, n, j)) == j;
  }

  /** The primitive that vertex number n completes. */
  lemma CompletedPrimitive(light: Lighting, smooth: bool, mode: Mode, stream: seq<Slot>, n: nat)
    requires |stream| == n + 1
    ensures InRange(n + 1, Completed(mode, n))
    ensures var added := Primitives(light, smooth, mode, stream, Completed(mode, n));
            if Position(mode, n) == 2 then
              var i0, i1 := HeldIndex(mode, n, 0), HeldIndex(mode, n, 1);
              && i0 < n && i1 < n
              && added == [Primitive(Handed(light, smooth, mode, i0, stream[i0]),
                                     Handed(light, smooth, mode, i1, stream[i1]),
                                     Shaded(light, stream[n]))]
              && Handed(light, smooth, mode, n, stream[n]) == Shaded(light, stream[n])
            else added == []
  {
    PositionRange(mode, n);
    hide HeldIndex;
  }

  /** What the positions point to after the pointers are permuted. */
  lemma HeldAdvance(mode: Mode, n: nat)
    requires mode != Unsupported
    ensures var p := Position(mode, n);
            && (mode != Triangles && !(mode == Quads && n >= 4) ==> p == if n < 2 then n else 2)
            && (if p < 2 then
                  && Position(mode, n + 1) == p + 1
                  && !HeldHanded(mode, n + 1)
                  && HeldIndex(mode, n + 1, p) == n
                  && (p == 1 ==> HeldIndex(mode, n + 1, 0) == HeldIndex(mode, n, 0))
                else if mode == Triangles || (mode == Quads && n >= 3) then
                  Position(mode, n + 1) == 0
                else
                  && Position(mode, n + 1) == 2 && HeldHanded(mode, n + 1)
                  && (if mode == TriangleStrip && n % 2 == 0
                      then HeldIndex(mode, n + 1, 0) == n && HeldIndex(mode, n + 1, 1) == HeldIndex(mode, n, 1)
                      else HeldIndex(mode, n + 1, 0) == HeldIndex(mode, n, 0) && HeldIndex(mode, n + 1, 1) == n))
  {
    match mode
    case Triangles => Mod3Step(n);
    case TriangleStrip => assert (n + 1) % 2 == 1 - n % 2;
    case Quads => if n >= 4 { Mod3Step(n - 4); }
    case _ =>
  }

  lemma Mod3Step(n: nat)
    ensures (n + 1) % 3 == if n % 3 == 2 then 0 else n % 3 + 1
  {
  }

  // ---------------------------------------------------------------------
  // The clipper's invariant for what is received
  // ---------------------------------------------------------------------

  /** A slot as glVertex fills it. */
  ghost predicate Received(st: State, s: Slot) {
    Proper(st, s.v)
  }

  /** The transformation leaves proper vertices. */
  lemma MadeProper(st: State, vc: Vec4, colour: Vec4, tex: Tex)
    requires st.texturing ==> tex.Tex?
    ensures Proper(st, MakeVertex(st, vc, colour, tex))
  {
    hide GetClipFlags, ClipToNDev;
  }

  /** Whatever has been received, the clipper starts with its invariant on
      every assembled primitive. */
  lemma PrimitivesReady(st: State, light: Lighting, mode: Mode, stream: seq<Slot>, p: Primitive)
    requires st.eps == 0.0 && forall s | s in stream :: Received(st, s)
    requires InRange(|stream|, Assembly(mode, |stream|))
    requires p in Primitives(light, st.smooth, mode, stream, Assembly(mode, |stream|))
    ensures Ready(st, TriOf(p), 0)
  {
    hide Assembly, GetClipFlags, ClipToNDev, Completed;
    var ts := Assembly(mode, |stream|);
    var i :| 0 <= i < |ts| && p == PrimitiveOf(light, st.smooth, mode, stream, ts[i]);
    assert ts[i] in ts;
    assert Received(st, stream[ts[i].a]) && Received(st, stream[ts[i].b]) && Received(st, stream[ts[i].c]);
  }

  // ---------------------------------------------------------------------
  // The renderer
  // ---------------------------------------------------------------------

  class CRenderer {
    const state: State
    const light: Lighting
    var inBeginEnd: bool
    var mode: Mode
    const vertices: array<Slot>
    const triangle: array<nat>   // which slot each position points to
    var flipFlop: bool
    var vertIdx: nat
    var error: GlError
    var rastered: seq<Tri>       // triangles the rasterizer received
    ghost var stream: seq<Slot>  // vertices received since glBegin
    ghost var primitives: seq<Primitive>  // triangles clipped since glBegin
    ghost var before: seq<Tri>   // what the rasterizer had at glBegin

    ghost predicate Pointers()
      reads triangle
    {
      triangle.Length == 3 && vertices.Length == 3 &&
      triangle[0] < 3 && triangle[1] < 3 && triangle[2] < 3 &&
      triangle[0] != triangle[1] && triangle[0] != triangle[2] && triangle[1] != triangle[2]
    }

    /** Position j points to vertex number k of the stream. */
    ghost predicate Holds(j: nat, k: nat, handed: bool)
      requires Pointers() && j < 3
      reads `mode, `stream, triangle, vertices
    {
      k < |stream| &&
      vertices[triangle[j]] == if handed then Handed(light, state.smooth, mode, k, stream[k]) else stream[k]
    }

    /** The vertex buffer after the vertices of the stream. */
    ghost predicate Buffered()
      requires Pointers()
      reads `mode, `stream, `vertIdx, `flipFlop, triangle, vertices
    {
      var n := |stream|;
      && vertIdx == Position(mode, n)
      && (mode == TriangleStrip ==> flipFlop == (n < 3 || n % 2 == 0))
      && (mode == Quads ==> flipFlop == (n < 3))
      && (vertIdx > 0 ==> Holds(0, HeldIndex(mode, n, 0), HeldHanded(mode, n)))
      && (vertIdx > 1 ==> Holds(1, HeldIndex(mode, n, 1), HeldHanded(mode, n)))
    }

    /** Every vertex of the stream was transformed. */
    ghost predicate AllReceived()
      reads `stream
    {
      forall s | s in stream :: Received(state, s)
    }

    /** Everything assembled and rasterized since glBegin. */
    ghost predicate Drawn()
      reads `mode, `stream, `primitives, `before, `rastered
    {
      && InRange(|stream|, Assembly(mode, |stream|))
      && primitives == Primitives(light, state.smooth, mode, stream, Assembly(mode, |stream|))
      && rastered == before + Rastered(state, primitives)
    }

    ghost predicate Valid()
      reads `inBeginEnd, `mode, `stream, `vertIdx, `flipFlop, `primitives, `before, `rastered, triangle, vertices
    {
      Pointers() && (inBeginEnd ==> mode != Unsupported && Buffered() && Drawn() && AllReceived())
    }

    constructor (st: State, lighting: Lighting, empty: Slot)
      ensures Valid() && fresh(vertices) && fresh(triangle)
      ensures !inBeginEnd && rastered == [] && state == st && light == lighting && error == NoError
    {
      state, light := st, lighting;
      inBeginEnd, mode, flipFlop, vertIdx := false, Unsupported, true, 0;
      vertices := new Slot[3](_ => empty);
      triangle := new nat[3](i => i);
      error, rastered, stream, primitives, before := NoError, [], [], [], [];
    }

    method GlBegin(m: Mode)
      requires Valid()
      modifies this, triangle
      ensures Valid()
      ensures old(inBeginEnd) ==> error == InvalidOperation && inBeginEnd && stream == old(stream) && mode == old(mode)
      ensures !old(inBeginEnd) && m == Unsupported ==> error == InvalidEnum && !inBeginEnd
      ensures !old(inBeginEnd) && m != Unsupported ==>
                error == old(error) && inBeginEnd && mode == m && stream == [] && before == rastered
      ensures rastered == old(rastered)
    {
      if inBeginEnd {
        error := InvalidOperation;
        return;
      }
      if m == Unsupported {
        error := InvalidEnum;
        return;
      }
      Begin(m);
    }

    method Begin(m: Mode)
      requires m != Unsupported && Pointers()
      modifies this, triangle
      ensures Valid() && inBeginEnd && mode == m && stream == [] && before == rastered == old(rastered)
      ensures error == old(error)
    {
      hide Assembly, Handed, HeldIndex, HeldHanded, Clip, Passed, Completed;
      EmptyAssembly(m);
      inBeginEnd := true;
      mode := m;
      triangle[0], triangle[1], triangle[2] := 0, 1, 2;
      flipFlop := true;
      vertIdx := 0;
      stream, primitives, before := [], [], rastered;
    }

    method GlEnd()
      requires Valid()
      modifies this
      ensures Valid() && !inBeginEnd && rastered == old(rastered)
      ensures error == if old(inBeginEnd) then old(error) else InvalidOperation
    {
      if !inBeginEnd {
        error := InvalidOperation;
        return;
      }
      inBeginEnd := false;
    }

    /** glVertex4f after the transformation to clip coordinates. */
    method GlVertex(eye: Vec4, normal: Vec4, vc: Vec4, colour: Vec4, u: real, v: real)
      requires Valid()
      modifies this, vertices, triangle
      ensures Valid() && inBeginEnd == old(inBeginEnd) && mode == old(mode) && before == old(before)
      ensures old(inBeginEnd) ==> Drawn()
      ensures inBeginEnd && state.eps == 0.0 ==> forall p | p in primitives :: Ready(state, TriOf(p), 0)
      ensures stream == if old(inBeginEnd)
                        then old(stream) + [Slot(eye, normal, MakeVertex(state, vc, colour, Tex(u, v)), false)]
                        else old(stream)
      ensures !old(inBeginEnd) ==> rastered == old(rastered)
    {
      hide Drawn, Buffered, Ready, Proper;
      AllReady();
      if !inBeginEnd {
        return;
      }
      MadeProper(state, vc, colour, Tex(u, v));
      PrimitiveAssembly(Slot(eye, normal, MakeVertex(state, vc, colour, Tex(u, v)), false));
      AllReady();
    }

    /** Every primitive enters the clipper with its invariant. */
    lemma AllReady()
      requires Valid()
      ensures inBeginEnd && state.eps == 0.0 ==> forall p | p in primitives :: Ready(state, TriOf(p), 0)
    {
      hide Assembly, Primitives, Ready, Rastered, Received;
      if inBeginEnd && state.eps == 0.0 {
        forall p | p in primitives ensures Ready(state, TriOf(p), 0) {
          PrimitivesReady(state, light, mode, stream, p);
        }
      }
    }

    /** Writes the vertex through the pointer table, and on the third one clips
        the triangle and permutes the table. */
    method PrimitiveAssembly(v: Slot)
      requires Valid() && inBeginEnd && Received(state, v)
      modifies this, vertices, triangle
      ensures Valid() && inBeginEnd && mode == old(mode) && before == old(before)
      ensures stream == old(stream) + [v] && Drawn()
    {
      hide Clip, Passed, Handed, TriOf, Assembly, Buffered, Stored, HeldIndex, HeldHanded, Rastered, Received;
      PrimitivesStep(light, state.smooth, mode, stream, v);
      ghost var added := Primitives(light, state.smooth, mode, stream + [v], Completed(mode, |stream|));
      RasteredAppend(state, primitives, added);
      Store(v);
      Advance();
    }

    /** The buffer between the write of vertex n-1 and the permutation. */
    ghost predicate Stored()
      requires Pointers()
      reads `mode, `stream, `vertIdx, `flipFlop, triangle, vertices
    {
      |stream| > 0 &&
      var n := |stream| - 1;
      && vertIdx == Position(mode, n)
      && (mode == TriangleStrip ==> flipFlop == (n < 3 || n % 2 == 0))
      && (mode == Quads ==> flipFlop == (n < 3))
      && (vertIdx > 0 ==> Holds(0, HeldIndex(mode, n, 0), vertIdx == 2))
      && (vertIdx > 1 ==> Holds(1, HeldIndex(mode, n, 1), vertIdx == 2))
      && Holds(vertIdx, n, vertIdx == 2)
    }

    method Store(v: Slot)
      requires Pointers() && mode != Unsupported && Buffered()
      modifies this`stream, this`primitives, this`rastered, vertices
      ensures Pointers() && Stored() && stream == old(stream) + [v]
      ensures InRange(|stream|, Completed(mode, |old(stream)|))
      ensures var added := Primitives(light, state.smooth, mode, stream, Completed(mode, |old(stream)|));
              && primitives == old(primitives) + added
              && rastered == old(rastered) + Rastered(state, added)
    {
      hide Clip, PassesCull, Passed, TriOf, Shaded, Handed, Completed, HeldIndex, HeldHanded, Primitives;
      ghost var n := |stream|;
      vertices[triangle[vertIdx]] := v;
      stream := stream + [v];
      PositionRange(mode, n);
      CompletedPrimitive(light, state.smooth, mode, stream, n);
      if vertIdx == 2 {
        ghost var i0, i1 := HeldIndex(mode, n, 0), HeldIndex(mode, n, 1);
        Rehanded(light, state.smooth, mode, n, 0, stream[i0]);
        Rehanded(light, state.smooth, mode, n, 1, stream[i1]);
        FragmentClip(triangle[0], triangle[1], triangle[2]);
        RasteredOne(state, Primitive(vertices[triangle[0]], vertices[triangle[1]], vertices[triangle[2]]));
      }
    }

    /** The pointer permutation and the next position. */
    method Advance()
      requires Pointers() && mode != Unsupported && Stored()
      modifies this`vertIdx, this`flipFlop, triangle
      ensures Pointers() && Buffered()
    {
      hide Handed, HeldIndex, HeldHanded, Position;
      PositionRange(mode, |stream| - 1);
      HeldAdvance(mode, |stream| - 1);
      match mode {
        case Triangles =>
          vertIdx := vertIdx + 1;
          if vertIdx > 2 { vertIdx := 0; }
        case TriangleStrip =>
          if vertIdx == 2 {
            if flipFlop {
              triangle[0], triangle[2] := triangle[2], triangle[0];
            } else {
              triangle[1], triangle[2] := triangle[2], triangle[1];
            }
            flipFlop := !flipFlop;
          } else {
            vertIdx := vertIdx + 1;
          }
        case Quads =>
          if vertIdx == 2 {
            triangle[1], triangle[2] := triangle[2], triangle[1];
            if flipFlop { flipFlop := false; } else { vertIdx := 0; }
          } else {
            vertIdx := vertIdx + 1;
          }
        case TriangleFan | Polygon =>
          if vertIdx == 2 {
            triangle[1], triangle[2] := triangle[2], triangle[1];
          } else {
            vertIdx := vertIdx + 1;
          }
      }
    }

    /** Lights what is not lit yet, in place, and clips. */
    method FragmentClip(a: nat, b: nat, c: nat)
      requires a < 3 && b < 3 && c < 3 && a != b && a != c && b != c && vertices.Length == 3
      modifies vertices, this`rastered, this`primitives
      ensures vertices[a] == if state.smooth then Shaded(light, old(vertices[a])) else old(vertices[a])
      ensures vertices[b] == if state.smooth then Shaded(light, old(vertices[b])) else old(vertices[b])
      ensures vertices[c] == Shaded(light, old(vertices[c]))
      ensures primitives == old(primitives) + [Primitive(vertices[a], vertices[b], vertices[c])]
      ensures rastered == old(rastered) +
                          Passed(state, Clip(state, TriOf(Primitive(vertices[a], vertices[b], vertices[c])), 0))
    {
      hide Clip, PassesCull;
      if state.smooth {
        if !vertices[a].processed { VertexShaderLight(a); }
        if !vertices[b].processed { VertexShaderLight(b); }
      }
      if !vertices[c].processed { VertexShaderLight(c); }
      primitives := primitives + [Primitive(vertices[a], vertices[b], vertices[c])];
      RasterTriangleClip(vertices[a].v, vertices[b].v, vertices[c].v, 0);
    }

    method VertexShaderLight(k: nat)
      requires k < vertices.Length
      modifies vertices
      ensures vertices[k] == old(vertices[k]).(v := old(vertices[k].v).(c := light(old(vertices[k]))), processed := true)
      ensures forall j | 0 <= j < vertices.Length && j != k :: vertices[j] == old(vertices[j])
    {
      var s := vertices[k];
      vertices[k] := s.(v := s.v.(c := light(s)), processed := true);
    }

    /** The recursive clipper. */
    method RasterTriangleClip(v0: Vertex, v1: Vertex, v2: Vertex, firstBit: nat)
      requires firstBit <= 6
      modifies this`rastered
      ensures rastered == old(rastered) + Passed(state, Clip(state, Tri(v0, v1, v2), firstBit))
      decreases 6 - firstBit
    {
      hide Clip, Cut, PassesCull, Passed;
      NoSplit(state, Tri(v0, v1, v2), firstBit);
      PassedNothing(state);
      var clipOr := v0.clip.Or(v1.clip).Or(v2.clip);
      if clipOr.Zero() {
        FragmentCull(Tri(v0, v1, v2));
        return;
      }
      var clipAnd := v0.clip.And(v1.clip).And(v2.clip);
      if !clipAnd.Zero() {
        return;
      }
      var clipBit := firstBit;
      while clipBit < 6 && !clipOr.Bit(clipBit)
        invariant firstBit <= clipBit <= 6
        invariant NextBit(clipOr, clipBit) == NextBit(clipOr, firstBit)
      {
        clipBit := clipBit + 1;
      }
      if clipBit >= 6 {
        return;
      }
      PassedSplit(state, Tri(v0, v1, v2), firstBit);
      if v0.clip.Xor(v1.clip).Xor(v2.clip).Bit(clipBit) {
        var w0, w1, w2 := v0, v1, v2;
        if v0.clip.Bit(clipBit) {
        } else if v1.clip.Bit(clipBit) {
          w0, w1, w2 := v1, v2, v0;
        } else {
          w0, w1, w2 := v2, v0, v1;
        }
        var vNew1 := Cut(state, clipBit, w1, w0);
        var vNew2 := Cut(state, clipBit, w2, w0);
        RasterTriangleClip(vNew1, w1, w2, clipBit + 1);
        RasterTriangleClip(vNew2, vNew1, w2, clipBit + 1);
        assert Tri(w0, w1, w2) == Lead(Tri(v0, v1, v2), clipBit, true);
      } else {
        var w0, w1, w2 := v0, v1, v2;
        if !v0.clip.Bit(clipBit) {
        } else if !v1.clip.Bit(clipBit) {
          w0, w1, w2 := v1, v2, v0;
        } else {
          w0, w1, w2 := v2, v0, v1;
        }
        var vNew1 := Cut(state, clipBit, w0, w1);
        var vNew2 := Cut(state, clipBit, w0, w2);
        RasterTriangleClip(w0, vNew1, vNew2, clipBit + 1);
        assert Tri(w0, w1, w2) == Lead(Tri(v0, v1, v2), clipBit, false);
      }
    }

    method FragmentCull(t: Tri)
      modifies this`rastered
      ensures rastered == old(rastered) + Passed(state, [t])
    {
      if t.v0.vd.Ndc? && t.v1.vd.Ndc? && t.v2.vd.Ndc? {
        var vnz := Vnz(t.v0.vd, t.v1.vd, t.v2.vd);
        if vnz == 0.0 {
          return;
        }
        if state.culling {
          match state.cullMode {
            case Back => if vnz < 0.0 { return; }
            case Front => if vnz > 0.0 { return; }
            case FrontAndBack => return;
          }
        }
      } else if state.culling && state.cullMode == FrontAndBack {
        return;
      }
      rastered := rastered + [t];
    }
  }
}
