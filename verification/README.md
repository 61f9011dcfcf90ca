# Verified models of the graphics, memory, audio and formatting cores

This project models the parts of the system whose correctness rests on
arithmetic, state machines and data structures, and proves what they are meant
to do:

- **Triangle clipper and primitive assembly** (`gl/render.cpp`). `ClipGeometry`,
  `TriangleClip`, `ClipExact`, `ClipArea` and `ClipInterior` treat the recursive clipper as a
  geometric transformation over the reals: it keeps exactly the visible
  fragments (position, colour and texture), conserves signed area and never
  changes a culling decision. `Renderer` is the renderer object with its
  permuted table of vertex pointers; it assembles the triangles of OpenGL
  1.2.1, section 2.6.1, and every vertex is lit once. `Picture` joins the two:
  everything the rasterizer receives is visible in one of those triangles, and
  every visible fragment of a triangle is received that has area, does more than
  touch the view volume, and is not culled.
- **External memory allocator** (`kernel/kernel/externalMemory.cpp`).
  `BlockList` holds the list functions, the tiling invariant and its canonical
  form; `ExternalMemory` is the linked queue of mutable blocks, proved against
  those functions.
- **MOD player** (`apps/modPlayer/modPlayer.cpp`). `Mixer` is the resampling
  mixer, `Sequencer` the order/row/tick machine, `Volume` the volume effects,
  `Channels` a channel from the cells of a song, with notes, pitch and volume, to
  the mixer, `Effects` what every effect does to it in plain numbers, `RowTiming`
  how long a row lasts and where it leads, `Schedule` the times of the ticks for
  songs with any tempos, `Stream` the samples heard, and `ModPlayer` the player
  object.
- **Edge and line steppers, 2D drawing** (`gl/CDDA.*`,
  `kernel/kernel/2dRenderer.cpp`). `EdgeWalker` and `Raster2D`.
- **Number parsing and printing** (`libc/stdlib.c`, `kernel/kernel/debug.cpp`,
  `stl/ostream.cpp`). `Numbers`.
- **Fixed-point blending** (`gl/rasterScanline.cpp`, `gl/rasterCommon.cpp`,
  `gl/mathlib.h`). `Blend`.

`Arithmetic` collects division facts and the floor division both steppers use,
`Common` the few definitions several components share.

## How the model represents the program

- Clip-space coordinates are mathematical reals, and the tolerance
  `CLIP_ROUNDING_ERROR` is the field `eps` of the state. Lemmas that need
  `eps == 0` say so (`Ready`, `Splits`); the others hold for every `eps`. A
  division by `w == 0` yields `NotFinite`.
- The outcode is six booleans. The pointers `triangle_[0..2]` are indices into
  the vertex array. The block queue is an ordinary doubly linked list with a
  head.
- What leaves the modelled part is a recorded sequence: triangles given to the
  rasterizer, samples given to the output channel, characters given to the
  console. Lighting is an arbitrary function of the vertex; the matrices are
  applied before the model starts.
- 32-bit and 16-bit wrap-around is written out where the code relies on it
  (mixer positions and accumulator, `MODVolumeSlide`, colour cells), and proved
  not to happen where the code relies on that.

## Where the code differs from what it promises

- `GL_QUADS` never sets its flip-flop back, so it follows OpenGL exactly for at
  most six vertices other than three (`Renderer.QuadsMeetOpenGlIff`). An
  incomplete quad of three vertices is drawn as a triangle.
- `E60` marks the row after its own as the start of a pattern loop, because the
  row counter has already moved on, although apps/modPlayer/modPlayer.h:81
  says that the field is set to the current row
  (`Sequencer.LoopStartMarksNextRow`).
- E1x, fine slide up, adds to the period and so lowers the pitch, and E2x raises
  it, against the direction of 1xx and 2xx (`Effects.RowPeriod`,
  `Effects.MidPeriod`).
- A tempo change moves the next tick by the change of length twice: once in
  `MODSetTempo` and once in `update`. So the tick after a change is never one
  tick length away, and if the tempo more than doubles (or just doubles, with
  the rounding against it) the number of samples to mix is negative
  (`Schedule.TempoTickIff`). FFF in the first row of a song breaks the sixth
  buffer (`Schedule.FirstRow`, `Schedule.FastSong`, `ModPlayer.FiveBuffers`); a
  song whose tempos stay within a factor of two is always on time
  (`Schedule.GentleSong`).
- A triangle that contains the origin of clip space, and so has no area, is not
  stopped by the test for area: its pieces have a vertex with w = 0, where every
  comparison is false (`ClipInterior.OriginIff`, `ClipInterior.CullDecision`,
  `ClipInterior.OriginWitness`).
- The frequency of a channel is divided by a period that is 0 from `play` to the
  first note or slide: a row with E10 or E20 and no note, or a vibrato whose
  slide is 0, divides by 0 then, and nothing else ever does
  (`Channels.StepSound`, `Channels.RunFailsIff`, `Channels.FineSlideZero`).
- A note whose sample offset is not before the end of its sample, or whose sample
  has length 0, makes the mixer start reading behind that end
  (`Channels.NotePlayableIff`).
- `CDDA::init` overflows 32 bits for some coordinates from 32765 sixteenths of a
  pixel on, and for none below (`EdgeWalker.InitFitsIff`).
- `setClipRect` clamps the corners, so a rectangle beside the surface leaves a
  strip along the edge drawable (`Raster2D.ClampedRectExactIff`).
- `strtol` takes `0x` as a prefix even if no hexadecimal digit follows, where
  C99 section 7.20.1.4 asks for the value 0 and an end pointer at the `x`
  (`Numbers.MeetsStandardIff`).
- `GL_SRC_ALPHA_SATURATE` acts as `GL_ZERO` (`Blend.FactorsMeetOpenGlIff`).

## Model

| member | source | states |
|---|---|---|
| ClipGeometry.NoFlagsIsInside | gl/render.cpp:47-58 | the outcode is zero if and only if the vertex is in all six half-spaces |
| ClipGeometry.CutOnEdge | gl/render.cpp:2087-2118 | the stored intersection is the point of the edge at the computed parameter and lies on the plane, although one coordinate is copied from w |
| ClipGeometry.CutInterpolates | gl/render.cpp:2224-2251 | every interpolated quantity of a new vertex is the same mix of the edge's ends, with a parameter in [0,1) given by the distances to the plane; under flat shading the colour is that of the second end |
| ClipGeometry.CutOnEdgeIff | gl/render.cpp:2099-2103 | the parameter is in [0,1) if and only if the ends are on different sides, for whatever the outcodes with tolerance say |
| TriangleClip.ClipBound | gl/render.cpp:2133-2221 | at most 2^(6-clipBit) triangles, so 64, are emitted, all with outcode zero, for every tolerance |
| TriangleClip.EmittedWithinWidened | gl/render.cpp:2133-2221 | for every tolerance, emitted vertices lie in the volume widened by it |
| TriangleClip.RoundingReturnUnreachable | gl/render.cpp:2158-2168 | the "rounding error" return is never taken |
| TriangleClip.XorSelectsSplit | gl/render.cpp:2170-2208 | the exclusive or selects the one-outside or the one-inside case correctly, and the rearranged first vertex is that one |
| TriangleClip.KeptReady | gl/render.cpp:2173-2219 | every recursive call starts with all vertices inside the planes already done |
| TriangleClip.EmittedInside | gl/render.cpp:2133-2221 | emitted vertices are inside all six planes with device coordinates in [-1,1] |
| TriangleClip.NdcInUnitCube | gl/render.cpp:36-45 | perspective division of a vertex inside the volume gives coordinates in [-1,1], or the vertex is the origin with w = 0 |
| ClipExact.SplitSound | gl/render.cpp:2173-2219 | every fragment of a kept piece is a fragment of the split triangle |
| ClipExact.SplitComplete | gl/render.cpp:2173-2219 | every fragment inside the plane is a fragment of a kept piece |
| ClipExact.RejectIsInvisible | gl/render.cpp:2154-2156 | trivial reject loses no visible fragment |
| ClipExact.ClipSound | gl/render.cpp:2087-2251 | every point of an emitted triangle is a convex combination of the input vertices with the same position, colour and texture |
| ClipExact.ClipComplete | gl/render.cpp:2087-2251 | every visible fragment of the input is a fragment of an emitted triangle |
| ClipExact.ClipIsExact | gl/render.cpp:2087-2251 | a fragment is emitted if and only if it is visible |
| ClipExact.EmittedVisible | gl/render.cpp:2133-2221 | every point of every emitted triangle lies in all six half-spaces |
| ClipArea.SplitAreas | gl/render.cpp:2173-2219 | the (x,y,w) determinants of kept and cut-off pieces have the parent's sign and sum to it |
| ClipArea.ClipConservesArea | gl/render.cpp:2133-2221 | over the whole recursion, emitted plus discarded area is the input's |
| ClipArea.EmittedShare | gl/render.cpp:2133-2221 | every emitted triangle keeps the orientation, with at most the input's area |
| ClipArea.DiscardedShare | gl/render.cpp:2133-2221 | everything discarded keeps the orientation and lies beyond one plane |
| ClipArea.DetIsVnz | gl/render.cpp:1938-1940 | the determinant is the device-space cross product times the three w's |
| ClipArea.CullByWindowArea | gl/render.cpp:1933-1969 | without culling a triangle is dropped if and only if it has no area on screen; GL_BACK keeps exactly the counter-clockwise triangles, GL_FRONT exactly the clockwise ones, GL_FRONT_AND_BACK none, by the shoelace sum of OpenGL 1.2.1 section 3.5.1 |
| ClipArea.WindowSign | gl/render.cpp:1938-1940 | in front of the eye, the determinant has the sign of the area on screen |
| ClipArea.Divide | gl/render.cpp:36-45 | the device coordinates are the clip coordinates divided by w, with the inverse of w |
| ClipArea.CullUnchanged | gl/render.cpp:1933-1969 | a piece is passed on if and only if it has area and the orientation of the whole triangle is kept; a piece with a vertex at w = 0 has no area and is stopped only by GL_FRONT_AND_BACK |
| ClipInterior.CommonSide | gl/render.cpp:2173-2197 | a fragment and a point on the way to any other one lie on the same side of a cut |
| ClipInterior.SplitProper | gl/render.cpp:2173-2219 | of the kept pieces one with area shows the fragment and does more than touch the volume, also when a vertex lies exactly on the plane or the triangle in a face |
| ClipInterior.ClipProper | gl/render.cpp:2133-2251 | every visible fragment of a triangle that has area and does more than touch the volume, or lies in the plane of a face and does more than touch that face, belongs to an emitted triangle with area |
| ClipInterior.KeptFlat | gl/render.cpp:2173-2219 | the pieces of a triangle in a plane stay in that plane |
| ClipInterior.OriginIff | gl/render.cpp:2133-2221 | pieces with a vertex at w = 0 come exactly from the triangles that contain the origin of clip space |
| ClipInterior.OriginFlat | gl/render.cpp:1938-1940 | those triangles have no area |
| ClipInterior.CullDecision | gl/render.cpp:1933-1969 | for every piece of every triangle: it is passed on if and only if the whole triangle is not culled and the piece has area or a vertex at w = 0 |
| ClipInterior.OriginWitness | gl/render.cpp:1942-1968 | a triangle without area that is passed on with back culling |
| Renderer.QuadsMeetOpenGlIff | gl/render.cpp:2062-2080 | quads are assembled as OpenGL asks if and only if there are at most six vertices and not three |
| Renderer.AssemblyStep | gl/render.cpp:2001-2082 | the triangle formulas of OpenGL 1.2.1 section 2.6.1 grow, with each vertex, by the triangle of the two held vertices and the new one |
| Renderer.HeldAdvance | gl/render.cpp:2012-2081 | which stream vertices the pointers address after each permutation |
| Renderer.PrimitivesStep | gl/render.cpp:1972-2082 | what one vertex adds to the primitives handed to the clipper, lit once |
| Renderer.RasteredAppend | gl/render.cpp:1997 | clipping a list of primitives is clipping its parts in order |
| Renderer.CRenderer.constructor | gl/render.cpp:63-200 | for every setting of shading, texturing and culling, the new renderer satisfies the invariant and has drawn nothing |
| Renderer.CRenderer.GlBegin | gl/render.cpp:1659-1699 | the two errors, and the fresh state of assembly |
| Renderer.CRenderer.GlEnd | gl/render.cpp:1702-1716 | the error outside begin/end, and nothing drawn |
| Renderer.CRenderer.GlVertex | gl/render.cpp:1718-1817 | after every vertex, what the rasterizer received is exactly the clipped and culled OpenGL triangles of the stream, each of which entered the clipper with its invariant |
| Renderer.CRenderer.PrimitiveAssembly | gl/render.cpp:2001-2082 | the pointer-swapping assembler draws exactly the triangles of the stream's formula |
| Renderer.CRenderer.Store | gl/render.cpp:2006-2017 | a vertex written through the pointer table completes exactly the triangle of the formula |
| Renderer.CRenderer.Advance | gl/render.cpp:2018-2080 | the permutation leaves every pointer at the vertex the formula needs next |
| Renderer.CRenderer.FragmentClip | gl/render.cpp:1972-1998 | vertices are lit in place unless already lit, and the triangle is clipped |
| Renderer.CRenderer.RasterTriangleClip | gl/render.cpp:2133-2221 | the recursive procedure hands on exactly the culled triangles of the clip function |
| Renderer.CRenderer.FragmentCull | gl/render.cpp:1933-1969 | a triangle is passed on if and only if it passes the culling test |
| Renderer.MadeProper | gl/render.cpp:1790-1817 | a transformed vertex carries its own outcode and, inside the volume, its device coordinates |
| Renderer.PrimitivesReady | gl/render.cpp:1790-2082 | every assembled primitive enters the clipper with its invariant |
| Renderer.CRenderer.AllReady | gl/render.cpp:1718-2082 | that holds for everything a renderer object has assembled, at any time |
| Picture.LitOnce | gl/render.cpp:1972-1998 | under smooth shading every vertex of every triangle is lit exactly once, in any mode |
| Picture.LitFlat | gl/render.cpp:1991-1995 | under flat shading the third vertex of every triangle is lit once, and a separate triangle has no other lit vertex |
| Picture.SharedEdges | gl/render.cpp:2023-2061 | neighbouring triangles of strips and fans share an edge, run through in opposite directions, and each brings in the next vertex |
| Picture.RasteredIs | gl/render.cpp:1933-2221 | the rasterizer receives exactly the clipped pieces that pass the culling test |
| Picture.VisibleIsDrawn | gl/render.cpp:1933-2251 | every visible fragment of a primitive that has area and does more than touch the volume, or the face it lies in, is shown by a received triangle, if and only if culling is off, or GL_BACK is culled and the primitive is counter-clockwise, or GL_FRONT and it is clockwise |
| Picture.VisibleIsKept | gl/render.cpp:1933-2251 | for any primitive, degenerate or touching the volume only: the piece that shows a visible fragment is received if and only if it passes culling and has area |
| Picture.DrawnIsVisible | gl/render.cpp:1933-2251 | every fragment drawn is a visible fragment of a primitive of the stream that is not culled |
| BlockList.RunInvariant | kernel/kernel/externalMemory.cpp:25-127 | over every run: exact tiling, positive sizes, no two free neighbours, disjoint blocks, conserved total, no wrap-around |
| BlockList.Canonical | kernel/kernel/externalMemory.cpp:25-127 | the list is determined by its allocated blocks |
| BlockList.CoalesceSteps | kernel/kernel/externalMemory.cpp:98-122 | releasing is marking free, merging the next block, then merging into the previous one |
| BlockList.FreeSpec | kernel/kernel/externalMemory.cpp:91-127 | free keeps the invariant and removes exactly the allocated block with that base |
| BlockList.FreesCommute | kernel/kernel/externalMemory.cpp:91-127 | the order of two frees does not matter |
| BlockList.IdleFree | kernel/kernel/externalMemory.cpp:91-127 | a free changes nothing if and only if it names no allocated block |
| BlockList.FreeAllRestores | kernel/kernel/externalMemory.cpp:91-127 | freeing all live blocks, in any order, restores the initial block |
| BlockList.MallocChainIff | kernel/kernel/externalMemory.cpp:55-88 | malloc keeps the invariant if and only if it does not split a block at one of its ends |
| BlockList.MallocLive | kernel/kernel/externalMemory.cpp:55-88 | the new block is disjoint from all others and has between n and n + blockSize - 1 bytes |
| BlockList.MallocFreeRestores | kernel/kernel/externalMemory.cpp:55-127 | malloc followed by free of the result restores the identical list |
| BlockList.MallocIsLeastRun | kernel/kernel/externalMemory.cpp:55-88 | malloc fails if and only if no run of n free bytes exists, and otherwise returns the least start of one |
| ExternalMemory.CExternalMemory.constructor | kernel/kernel/externalMemory.cpp:25-40 | the queue holds one free block |
| ExternalMemory.CExternalMemory.Malloc | kernel/kernel/externalMemory.cpp:55-88 | the linked queue changes as the list function says, and the result is the block's base or NULL |
| ExternalMemory.CExternalMemory.CarveInPlace | kernel/kernel/externalMemory.cpp:66-81 | the chosen block is marked and split in place |
| ExternalMemory.CExternalMemory.Free | kernel/kernel/externalMemory.cpp:91-127 | the linked queue changes as the list function says, for any address |
| ExternalMemory.CExternalMemory.Release | kernel/kernel/externalMemory.cpp:98-122 | two-sided merging over the links |
| ExternalMemory.CExternalMemory.AbsorbNext | kernel/kernel/externalMemory.cpp:103-122 | one merge removes exactly the second node |
| Mixer.WrapClosedForm | apps/modPlayer/modPlayer.cpp:1157-1162 | the subtracting loop is a remainder, and lands inside the loop |
| Mixer.LoopPosition | apps/modPlayer/modPlayer.cpp:1145-1163 | position of a looping channel after k samples in closed form |
| Mixer.OneShot | apps/modPlayer/modPlayer.cpp:1145-1156 | the same without a loop: linear up to the end of the sample, then silent |
| Mixer.ReadInRange | apps/modPlayer/modPlayer.cpp:1146 | a playing channel never reads outside its sample |
| Mixer.ChunksCompose | apps/modPlayer/modPlayer.cpp:1143-1174 | a samples and then b samples are a + b samples, for one channel |
| Mixer.MixChunksCompose | apps/modPlayer/modPlayer.cpp:1124-1180 | the same for the mixed output and all channel states |
| Mixer.AccumulatorBound | apps/modPlayer/modPlayer.cpp:1128-1176 | every partial sum is in [-32768, 32512] |
| Mixer.AccumulatorBoundTight | apps/modPlayer/modPlayer.cpp:1128-1176 | both ends of that bound are reached |
| Mixer.NoWordOverflow | apps/modPlayer/modPlayer.cpp:1141 | the unsigned end test does not wrap around |
| Mixer.SoundChannel.MixChecked | apps/modPlayer/modPlayer.cpp:1143-1164 | the checked loop adds the channel's samples and leaves it n samples further, stopping or looping |
| Mixer.SoundChannel.MixFast | apps/modPlayer/modPlayer.cpp:1168-1173 | the fast loop does the same whenever the channel does not reach its end |
| Mixer.SoundMixer.MixVoice | apps/modPlayer/modPlayer.cpp:1135-1175 | whichever loop the test picks, the result is the same |
| Mixer.SoundMixer.Mix | apps/modPlayer/modPlayer.cpp:1124-1180 | the output is the exact sum of the channels, and every channel advances by n samples |
| Mixer.SoundMixer.SetChannel | apps/modPlayer/modPlayer.cpp:1114-1121 | one slot changes, numbers out of range change nothing |
| Channels.NotePlayableIff | apps/modPlayer/modPlayer.cpp:541-559 | the first sample read of a note is number 256 * offset; it lies before the end of the sample, and the note meets the assumptions of the mixer, if and only if 128 * offset is below the stored end |
| Channels.IncrementIff | apps/modPlayer/modPlayer.cpp:517-518 | the sample step stays within the limit of the mixer if and only if the period is at least MOD_PERIOD_MIN |
| Channels.DivisorZeroIff | apps/modPlayer/modPlayer.cpp:508-518 | the divisor of the frequency is 0 if and only if period and vibrato slide are |
| Channels.RowPitchTuned | apps/modPlayer/modPlayer.cpp:378-440 | a row keeps pitch and finetune in range; when it plays, slides and sets the frequency |
| Channels.MidPitchTuned | apps/modPlayer/modPlayer.cpp:443-481 | mid-ticks keep the pitch in range; when the period is 0 afterwards |
| Effects.MidPeriod | apps/modPlayer/modPlayer.cpp:693-803 | 1xx lowers the period by the speed down to 53, 2xx raises it up to 1814, 3xx and 5xy close in on the target without crossing it, 0xy takes the three notes in turn, and nothing else changes the period |
| Effects.MidPeriodFirst | apps/modPlayer/modPlayer.cpp:612-625 | the same from a period of 0 |
| Effects.MidVolume | apps/modPlayer/modPlayer.cpp:901-907 | 5xy, 6xy and Axy slide the volume within 0 to 64, ECx cuts it, 7xy and the tremolo act on what the mixer gets |
| Effects.MidCounter | apps/modPlayer/modPlayer.cpp:1022-1078 | the counter of arpeggio, retrigger, cut and delay |
| Effects.MidNote | apps/modPlayer/modPlayer.cpp:1045-1075 | E9x and EDx start the note when the counter runs out, no other mid-tick does |
| Effects.MidFrequency | apps/modPlayer/modPlayer.cpp:508-518 | which mid-ticks set the frequency, and to what |
| Effects.RowVolume | apps/modPlayer/modPlayer.cpp:398-410 | sample volume, Cxx, EAx, EBx, and when the mixer gets the volume |
| Effects.RowLeavesEffect | apps/modPlayer/modPlayer.cpp:886-900 | volume slide, counter, and the effects a row cancels |
| Effects.RowPeriod | apps/modPlayer/modPlayer.cpp:495-538 | note, E5x, E1x and E2x on period and finetune |
| Effects.RowSlides | apps/modPlayer/modPlayer.cpp:717-765 | the speeds and the target a row sets |
| Effects.RowNote | apps/modPlayer/modPlayer.cpp:523-560 | which rows start which sample, where, with which length and loop |
| Effects.RowFrequency | apps/modPlayer/modPlayer.cpp:508-518 | which rows set the frequency, and to what |
| Effects.SilencedIsSilent | apps/modPlayer/modPlayer.cpp:275-282 | a silenced channel adds nothing to the mix |
| Channels.HandleSound | apps/modPlayer/modPlayer.cpp:484-560 | what carrying out an effect does to the channel, and exactly when it fails |
| Channels.StepSound | apps/modPlayer/modPlayer.cpp:378-560 | every row, mid-tick and mixing, from the cell on: exactly when it divides by 0, exactly when it starts a sample behind its end, and otherwise all the assumptions of the mixer are kept |
| Channels.RunSound | apps/modPlayer/modPlayer.cpp:378-560 | over every run that does not fail, volumes, pitch and the assumptions of the mixer are in range |
| Channels.RunFailsIff | apps/modPlayer/modPlayer.cpp:378-560 | a run fails in either way if and only if one of its events meets the condition on the state it finds |
| Channels.PeriodSinceStart | apps/modPlayer/modPlayer.cpp:253-270 | from play on the period is 0 exactly until the first event that sets it, and in the range of the table afterwards |
| Channels.FineSlideZero | apps/modPlayer/modPlayer.cpp:949-955 | E10 without a note as the first row divides by 0 |
| Channels.RunsFitAccumulator | apps/modPlayer/modPlayer.cpp:378-560 | after any runs of four channels that did not fail no partial sum of the mixer overflows |
| Sequencer.RowEffectsSoFar | apps/modPlayer/modPlayer.cpp:911-987 | what the effects of the first n channels leave in the sequencing fields |
| Sequencer.ProcessRowRefines | apps/modPlayer/modPlayer.cpp:378-440 | processing a row leads to its successor place |
| Sequencer.RowTickRefines | apps/modPlayer/modPlayer.cpp:350-365 | a row tick plays the upcoming row, which exists, or ends the song |
| Sequencer.TickRefines | apps/modPlayer/modPlayer.cpp:344-375 | every tick keeps the invariant and is either a step of the next-position function or leaves the place alone |
| Sequencer.RunRefines | apps/modPlayer/modPlayer.cpp:344-440 | over every run, the places visited are those of the next-position function and exist in the song |
| Sequencer.StartedInv | apps/modPlayer/modPlayer.cpp:253-272 | play starts at row 0 of order 0, satisfying the invariant |
| RowTiming.RowLasts | apps/modPlayer/modPlayer.cpp:344-375 | after a row that leaves speed v and pattern delay d, the next row tick comes exactly (d + 1) * max(v, 1) ticks later and none before, with v and d read off the cells |
| RowTiming.RowLeaves | apps/modPlayer/modPlayer.cpp:378-440 | the speed and the delay a row leaves are its last F00-F1F and its last EEx |
| RowTiming.Waiting | apps/modPlayer/modPlayer.cpp:344-375 | tick counter and delay at every tick between two rows |
| RowTiming.RowLeadsTo | apps/modPlayer/modPlayer.cpp:911-934 | where rows with and without Bxx and Dxx lead, with rows past 63 and orders past the last |
| Sequencer.LoopStartMarksNextRow | apps/modPlayer/modPlayer.cpp:972-974 | every E60 marks the following row, or 64 after a jump in an earlier channel, and never its own row |
| Sequencer.LoopPasses | apps/modPlayer/modPlayer.cpp:970-987 | place and counter before every pass of an E6n loop |
| Sequencer.LoopPlaysRows | apps/modPlayer/modPlayer.cpp:970-987 | an E6n loop plays its rows n + 1 times, in order, and then goes on |
| Volume.VolumeSlideClamps | apps/modPlayer/modPlayer.cpp:597-610 | one unsigned comparison clamps at both ends |
| Volume.RowKeepsLegal | apps/modPlayer/modPlayer.cpp:378-440 | no row effect pushes a volume above 64 |
| Volume.MidKeepsLegal | apps/modPlayer/modPlayer.cpp:443-481 | no mid-tick effect does, whatever the tremolo slide |
| Volume.VolumeBound | apps/modPlayer/modPlayer.cpp:378-494 | no sequence of effects does |
| Schedule.TickLengthBound | apps/modPlayer/modPlayer.cpp:585-593 | every tempo leaves hundreds of samples per tick and fits 32 bits |
| Schedule.TickLengthStrict | apps/modPlayer/modPlayer.cpp:585-593 | a faster tempo has strictly shorter ticks, despite the rounding |
| Schedule.TempoIsLast | apps/modPlayer/modPlayer.cpp:1082-1090 | the last Fxx from F20 on of a row is the tempo it leaves |
| Schedule.TempoTickIff | apps/modPlayer/modPlayer.cpp:293-299 | for all tempos: the next tick is one tick length away if and only if the tempo stays, and not in the past if and only if the tempo does not double, with the exact rounding at the limit |
| Schedule.OnTimeStep | apps/modPlayer/modPlayer.cpp:290-331 | a stretch is on time if and only if its next tick does not double the tempo (or ends the song) and the rest is on time |
| Schedule.RungSoon | apps/modPlayer/modPlayer.cpp:290-316 | two ticks on one sample only come with shorter ticks, so update terminates |
| Schedule.WaitOut | apps/modPlayer/modPlayer.cpp:302-331 | mixing n samples before a tick moves the schedule by n samples and nothing else |
| Schedule.ElapseCompose | apps/modPlayer/modPlayer.cpp:285-331 | the schedule does not depend on the buffers: a and then b samples are a + b samples, for position, tempo, wait and all ticks |
| Schedule.NoDrift | apps/modPlayer/modPlayer.cpp:285-331 | in every stretch without a new tempo tick k comes exactly floor((wait + k * length) / 4096) samples after its start, and wait + ticks * length = 4096 * samples + remaining wait |
| Schedule.ElapsePos | apps/modPlayer/modPlayer.cpp:285-331 | the position is the one after as many ticks as came |
| Schedule.SteadyIf | apps/modPlayer/modPlayer.cpp:285-331 | a stretch is without a new tempo if no row of the ticks due in it sets one |
| Schedule.SteadyForTicks | apps/modPlayer/modPlayer.cpp:285-331 | looking at as many ticks as samples suffices |
| Schedule.GentleSong | apps/modPlayer/modPlayer.cpp:285-331 | a song whose tempos stay within a factor of two never leaves a negative wait |
| Schedule.FirstRow | apps/modPlayer/modPlayer.cpp:253-331 | the first row of every song comes 3153 samples after play; the song is on time for that sample if and only if the row leaves a tempo of at most 250 |
| Schedule.FastSong | apps/modPlayer/modPlayer.cpp:285-331 | a song that is not |
| Stream.HearAhead | apps/modPlayer/modPlayer.cpp:302-331 | mixing n samples ahead of a tick leaves the rest of the stream as it is |
| Stream.HearCompose | apps/modPlayer/modPlayer.cpp:285-331 | the samples heard and the channels after a and then b samples are those after a + b samples, for every song and whatever ticks do to the channels |
| Stream.BuffersDoNotMatter | apps/modPlayer/modPlayer.cpp:285-331 | the same for any number of buffers of any sizes |
| ModPlayer.CMODPlayer.Play | apps/modPlayer/modPlayer.cpp:253-272 | the state after play |
| ModPlayer.CMODPlayer.Stop | apps/modPlayer/modPlayer.cpp:275-282 | the song stops and every channel is silenced |
| ModPlayer.CMODPlayer.MODSeek | apps/modPlayer/modPlayer.cpp:563-582 | the place after a seek, or the end of the song with all channels silenced |
| ModPlayer.CMODPlayer.MODUpdate | apps/modPlayer/modPlayer.cpp:344-375 | one tick: the sequencing state is the tick function's, and exactly the upcoming row, or the mid-tick effects, or the end of the song is applied to the channels |
| ModPlayer.CMODPlayer.MODProcessRow | apps/modPlayer/modPlayer.cpp:378-440 | every channel takes its cell, with note, pitch and volume, and the last tempo of the row is set |
| ModPlayer.CMODPlayer.RowFx | apps/modPlayer/modPlayer.cpp:911-1090 | the sequencing part of every row effect |
| ModPlayer.CMODPlayer.SpecialRow | apps/modPlayer/modPlayer.cpp:936-1018 | pattern loop and pattern delay |
| ModPlayer.CMODPlayer.MODSetTempo | apps/modPlayer/modPlayer.cpp:585-593 | the next tick moves by the change of length |
| ModPlayer.CMODPlayer.MODUpdateEffects | apps/modPlayer/modPlayer.cpp:443-481 | every channel reacts as the mid-tick effect says |
| ModPlayer.CMODPlayer.SongTick | apps/modPlayer/modPlayer.cpp:293-299 | position, tempo and wait after a tick are those of the schedule, for every row |
| ModPlayer.CMODPlayer.MixPiece | apps/modPlayer/modPlayer.cpp:302-331 | how many samples one piece mixes, of all channels, and what is left of the wait |
| ModPlayer.CMODPlayer.Mix | apps/modPlayer/modPlayer.cpp:308 | all channels advance by the samples mixed |
| ModPlayer.CMODPlayer.Piece | apps/modPlayer/modPlayer.cpp:290-331 | one turn of the loop follows the schedule and makes progress |
| ModPlayer.CMODPlayer.Update | apps/modPlayer/modPlayer.cpp:285-332 | for every song and tempo: unless a tick in this buffer leaves a negative wait, update terminates, mixes exactly one buffer, and every tick comes where the schedule since play has it |
| ModPlayer.FiveBuffers | apps/modPlayer/modPlayer.cpp:253-332 | a player whose song more than doubles the tempo in its first row mixes five buffers as scheduled, and is not on time for the sixth |
| Arithmetic.FloorDivMod | gl/CDDA.cpp:31-52 | truncating operators give the floor and a remainder in range; for a negative denominator they still give a division with remainder, in the stated range |
| EdgeWalker.FirstLineIsFirst | gl/CDDA.cpp:54-77 | the first line is the first whose centre is at or below y1 |
| EdgeWalker.ColumnIsLeast | gl/CDDA.cpp:54-77 | a pixel centre is strictly right of the exact edge if and only if its column is at least the stepper's |
| EdgeWalker.CDDA.Init | gl/CDDA.cpp:54-77 | the stepper starts at the column of the first line |
| EdgeWalker.CDDA.Advance | gl/CDDA.h:37-47 | each step yields the next line's column, with the error in range |
| EdgeWalker.Walk | gl/CDDA.h:37-47 | all columns of a run |
| EdgeWalker.RestartSameColumns | gl/CDDA.cpp:54-77 | restarting anywhere on the same line gives the same columns |
| EdgeWalker.EdgesStayOrdered | gl/CDDA.cpp:54-77 | edges from one top vertex with ordered slopes stay ordered on every line |
| EdgeWalker.InitFitsIff | gl/CDDA.cpp:54-77 | no intermediate result leaves 32 bits for all coordinates up to b if and only if b is at most 32764 sixteenths of a pixel |
| Raster2D.MinorWithinHalf | kernel/kernel/2dRenderer.cpp:352-453 | every pixel is within half a pixel of the ideal line |
| Raster2D.MinorEnds | kernel/kernel/2dRenderer.cpp:352-453 | both endpoints are hit |
| Raster2D.MinorConnected | kernel/kernel/2dRenderer.cpp:352-453 | successive pixels are 8-connected |
| Raster2D.MinorBetween | kernel/kernel/2dRenderer.cpp:352-453 | all pixels stay between the endpoints |
| Raster2D.OnLineMeans | kernel/kernel/2dRenderer.cpp:415-453 | a line has one pixel for each step of its longer axis, within its box and half a pixel of the ideal line, endpoints included |
| Raster2D.OnLineTurned | kernel/kernel/2dRenderer.cpp:443-451 | the same with the axes exchanged |
| Raster2D.StoredShows | kernel/kernel/2dRenderer.cpp:28-44 | a drawn cell holds the colour, in as many bits as the depth has; other depths are not drawn to |
| Raster2D.LineDda.constructor | kernel/kernel/2dRenderer.cpp:356-387 | the error term starts at half a pixel |
| Raster2D.LineDda.Increment | kernel/kernel/2dRenderer.cpp:389-398 | the error term stays exact and in range |
| Raster2D.LineDda.CurrentIsMinor | kernel/kernel/2dRenderer.cpp:352-413 | the stepper's position is the rounded exact one after any number of steps |
| Raster2D.C2DRenderer.SetSurface | kernel/kernel/2dRenderer.cpp:107-120 | the clip rectangle becomes the whole surface |
| Raster2D.C2DRenderer.SetClipRect | kernel/kernel/2dRenderer.cpp:317-334 | the clip rectangle stays a non-empty part of the surface |
| Raster2D.ClampedRectExactIff | kernel/kernel/2dRenderer.cpp:75-91 | clamping keeps exactly the requested part if and only if the rectangle overlaps the surface |
| Raster2D.C2DRenderer.SetPixel | kernel/kernel/2dRenderer.cpp:28-44 | exactly one cell changes |
| Raster2D.C2DRenderer.DrawHLine_i | kernel/kernel/2dRenderer.cpp:455-465 | exactly the cells of the row change |
| Raster2D.C2DRenderer.DrawVLine_i | kernel/kernel/2dRenderer.cpp:467-477 | exactly the cells of the column change |
| Raster2D.C2DRenderer.FillRect_i | kernel/kernel/2dRenderer.cpp:343-349 | exactly the cells of the rectangle change |
| Raster2D.C2DRenderer.FillRect | kernel/kernel/2dRenderer.cpp:182-213 | exactly the cells of rectangle and clip rectangle hold the colour, in 8, 16 or 32 bits, and no other cell changes, also when the outcodes reject |
| Raster2D.C2DRenderer.DrawLine | kernel/kernel/2dRenderer.cpp:216-239 | exactly the pixels of the line hold the colour, or no cell changes if an endpoint is outside |
| Raster2D.C2DRenderer.DrawLine_i | kernel/kernel/2dRenderer.cpp:415-453 | exactly the pixels of the line change |
| Numbers.CutoffTest | libc/stdlib.c:123-136 | the cutoff test fires if and only if the next digit would pass LONG_MAX |
| Numbers.Accumulate | libc/stdlib.c:126-143 | the digit loop consumes the longest run of digits, and its accumulator is their value and never above LONG_MAX |
| Numbers.ParseSubject | libc/stdlib.c:86-104 | white space, sign, prefix and base |
| Numbers.StrToL | libc/stdlib.c:72-155 | value, end pointer and ERANGE for every ASCII string and every base |
| Numbers.ConversionMeaning | libc/stdlib.c:72-155 | the value of the longest digit run saturated to the limits, with ERANGE if and only if it saturated |
| Numbers.ReadsNumber | libc/stdlib.c:72-155 | after white space and a sign, digits of either case in any base, or in the notations of C with base 0, with leading zeros and any text behind, are read as their number, saturated with ERANGE, consuming exactly that much |
| Numbers.ReadsNothing | libc/stdlib.c:151-152 | without a digit, also after a prefix, the value is 0 and nothing is consumed |
| Numbers.MeetsStandardIff | libc/stdlib.c:97-104 | the conversion is that of C99 section 7.20.1.4 if and only if no 0x stands without a digit |
| Numbers.PrintNk | kernel/kernel/debug.cpp:32-52 | the digits, most significant first, within the buffer for every base from 8 on |
| Numbers.PrintDecimal | kernel/kernel/debug.cpp:112-120 | sign and decimal digits |
| Numbers.PrintedReadsBack | kernel/kernel/debug.cpp:32-52 | strtol reads back every printed number, after white space and a sign, in lower or upper case, consuming all of it, in every base both accept and in base 0 with the prefixes of C |
| Numbers.TextReadsBack | kernel/kernel/debug.cpp:32-52 | it reads back exactly the text that is printed |
| Numbers.DecimalReadsBack | kernel/kernel/debug.cpp:112-120 | strtol inverts %d |
| Numbers.Insert | stl/ostream.cpp:89-110 | the stream prints the same digits by walking down the powers of ten |
| Numbers.InsertSigned | stl/ostream.cpp:26-87 | the signed operators print what %d prints |
| Blend.ShiftRounds | gl/rasterScanline.cpp:238-242 | shifting and clamping rounds the exact weighted sum down, within 30 bits |
| Blend.LerpIsWeighted | gl/mathlib.h:89-94 | interpolation with a shifted, possibly negative difference equals the weighted sum |
| Blend.FastIsGeneral | gl/rasterCommon.cpp:782-801 | every fast mode equals the general mode it stands for, bit for bit |
| Blend.GeneralLegal | gl/rasterScanline.cpp:180-244 | every result stays in [0, 2^14] |
| Blend.GeneralIsBlend | gl/rasterScanline.cpp:180-244 | the general mode is the equation of OpenGL 1.2.1 section 4.1.6, rounded down |
| Blend.BlendUnique | gl/rasterScanline.cpp:225-244 | that equation determines the colour |
| Blend.FactorsMeetOpenGlIff | gl/rasterScanline.cpp:180-197 | the factors are OpenGL's if and only if the factor is not GL_SRC_ALPHA_SATURATE |
| Blend.FactorLaws | gl/rasterScanline.cpp:180-197 | source and destination factors mirror each other, and complements add up to one |
| Blend.Blender.BlendFunc | gl/rasterCommon.cpp:782-801 | the fast mode always stands for the factors set |
| Blend.Blender.RasterBlend | gl/rasterScanline.cpp:224-244 | whichever mode is set, the result is the blend equation in every component |

## Left out

- Floating-point rounding. With a positive tolerance the intersection parameter
  can leave [0,1); only `EmittedWithinWidened`, `ClipBound` and `CutOnEdgeIff`
  cover that case.
- ClipExact.ClipSound: compares what the state interpolates, so not flat-shaded
  colour: which vertex is third changes when the clipper rotates a triangle.
- `glFrontFace`, which culling does not consult. Changes of state between `glBegin` and `glEnd`, array drawing, transformation
  and lighting formulas.
- The rasterizers: scanline loops, depth and alpha tests, texture lookup,
  `rasterScanline.inl` is not part of this model.
- malloc(0) and a block size of 0 are covered only by `MallocChainIff`, which
  says when the list survives them; the run and round-trip lemmas ask for
  n >= 1 and blockSize >= 1.
- ModPlayer.CMODPlayer.Update: what the mixer does when it is asked for a
  negative number of samples; `OnTime` and `OnTimeStep` say exactly when it is
  not.
- ModPlayer.CMODPlayer.MODUpdateEffects: the waveforms of tremolo and vibrato
  are arbitrary slides of eight bits.
- Renderer.CRenderer.constructor: for every setting, not only the initial one of
  the program.
- The numbers in the note table, notes 60 to 62, samples the song does not have,
  song callbacks, sound effects and the freeing of blocked channels. What a
  failed channel does after it failed.
- Raster2D.C2DRenderer.DrawLine: horizontal and vertical lines are taken
  forwards, because their width is unsigned and a negative one would be drawn
  far past the surface; sloped lines that run backwards along their longer axis
  draw nothing, as in the code.
- Raster2D.C2DRenderer.DrawLine_i: the same.
- Raster2D.C2DRenderer.SetClipRect: widths and heights of at least 1, and no
  wrap-around of the signed sums; the same for `FillRect`.
- `drawRect`, `fill`, `drawHLine`, `drawVLine`, colour formats: easy members over
  what is modelled.
- Numbers.StrToL: ASCII only, 32-bit long, and bases 0 and 2 to 36.
- Numbers.PrintNk: bases 8 to 16; the `%b`, `%c`, `%s` arms of `doprintk` and
  the scan of the format are left out, as are the stream's strings and
  64-bit numbers.
- Blend.Blender.RasterBlend: the equation of OpenGL is stated for all factors
  but GL_SRC_ALPHA_SATURATE, which the code treats as zero.
- Threads, file systems, drivers, the window manager, widgets, demos and games:
  input, output and data.
