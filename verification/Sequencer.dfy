/**
 Which row of which order the MOD player of apps/modPlayer/modPlayer.cpp plays
 next: rows, orders, jumps (Bxx), breaks (Dxx), pattern loops (E6x), pattern
 delay (EEx) and speed (F00-F1F).  `Tick` follows the code; `Successor` is the
 simple next-position function it refines.
 */
module Sequencer {

  const ROWS: nat := 64
  const CHANNELS: nat := 4

  /** One channel of one row of a pattern. */
  datatype Cell = Cell(note: nat, sample: nat, effect: nat, param: nat)

  type Row = r: seq<Cell> | |r| == CHANNELS witness [Cell(0, 0, 0, 0), Cell(0, 0, 0, 0), Cell(0, 0, 0, 0), Cell(0, 0, 0, 0)]

  /** A MOD file: its patterns and the order to play them in. */
  datatype SongData = Song(patterns: seq<seq<Row>>, order: seq<nat>)

  ghost predicate WellFormed(s: SongData) {
    && |s.order| <= 255
    && (forall i | 0 <= i < |s.order| :: s.order[i] < |s.patterns|)
    && (forall i | 0 <= i < |s.patterns| :: |s.patterns[i]| == ROWS)
    && (forall i, r, c | 0 <= i < |s.patterns| && 0 <= r < |s.patterns[i]| && 0 <= c < CHANNELS ::
          s.patterns[i][r][c].param < 256 && s.patterns[i][r][c].effect < 256)
  }

  /** Pattern loop memory of one channel. */
  datatype Loop = Loop(pos: nat, count: nat)

  /** The sequencing fields of SMOD.  rowPtr is the pair of a pattern number
      and a row. */
  datatype Pos = Pos(playing: bool, tick: nat, speed: nat, curRow: nat, curOrder: nat, nextOrder: nat,
                     breakRow: nat, patDelay: nat, ptrPattern: nat, ptrRow: nat, loops: seq<Loop>)

  // ---------------------------------------------------------------------
  // What the code does
  // ---------------------------------------------------------------------

  /** The sequencing part of one row effect on channel c. */
  function RowEffect(p: Pos, c: nat, cell: Cell): Pos
    requires c < |p.loops|
  {
    var lo := cell.param % 16;
    if cell.effect == 0xB then p.(nextOrder := cell.param, curRow := ROWS)
    else if cell.effect == 0xD then p.(breakRow := cell.param, curRow := ROWS)
    else if cell.effect == 0xE && cell.param / 16 == 0x6 then
      if lo == 0 then p.(loops := p.loops[c := p.loops[c].(pos := p.curRow)])
      else
        var count := (if p.loops[c].count == 0 then lo + 1 else p.loops[c].count) - 1;
        var q := p.(loops := p.loops[c := p.loops[c].(count := count)]);
        if count != 0 then q.(breakRow := p.loops[c].pos, nextOrder := p.curOrder, curRow := ROWS) else q
    else if cell.effect == 0xE && cell.param / 16 == 0xE then p.(patDelay := lo)
    else if cell.effect == 0xF && cell.param < 32 then p.(speed := cell.param)
    else p
  }

  /** The first n channels of a row. */
  function RowEffects(p: Pos, row: Row, n: nat): (q: Pos)
    requires n <= CHANNELS <= |p.loops|
    ensures |q.loops| == |p.loops|
  {
    if n == 0 then p else RowEffect(RowEffects(p, row, n - 1), n - 1, row[n - 1])
  }

  function ProcessRow(s: SongData, p: Pos): Pos
    requires CHANNELS <= |p.loops|
    requires p.ptrPattern < |s.patterns| && p.ptrRow < |s.patterns[p.ptrPattern]|
  {
    var q := RowEffects(p, s.patterns[p.ptrPattern][p.ptrRow], CHANNELS);
    q.(ptrRow := q.ptrRow + 1)
  }

  /** MODSeek. */
  function Seek(s: SongData, p: Pos, order: nat, row: nat): Pos
    requires forall i | 0 <= i < |s.order| :: s.order[i] < |s.patterns|
  {
    if order >= |s.order| then p.(curOrder := order, playing := false)
    else
      var r := if row >= ROWS then 0 else row;
      p.(curOrder := order, curRow := r, nextOrder := order + 1, breakRow := 0,
         ptrPattern := s.order[order], ptrRow := r)
  }

  /** The row tick of MODUpdate. */
  function RowTick(s: SongData, p: Pos): Pos
    requires WellFormed(s) && Inv(s, p) && p.playing
  {
    if p.curRow >= ROWS then
      var q := Seek(s, p.(curRow := p.curRow + 1), p.nextOrder, p.breakRow);
      if !q.playing then q else ProcessRow(s, q.(curRow := q.curRow + 1))
    else ProcessRow(s, p.(curRow := p.curRow + 1))
  }

  /** Does this update reach a row tick that is not delayed? */
  predicate PlaysRow(p: Pos) {
    p.playing && (p.tick + 1) % 256 >= p.speed && p.patDelay == 0
  }

  /** MODUpdate. */
  function Tick(s: SongData, p: Pos): Pos
    requires WellFormed(s) && Inv(s, p)
  {
    var tick := (p.tick + 1) % 256;
    if !p.playing then p
    else if tick < p.speed then p.(tick := tick)
    else if p.patDelay > 0 then p.(tick := 0, patDelay := p.patDelay - 1)
    else RowTick(s, p.(tick := 0))
  }

  // ---------------------------------------------------------------------
  // The invariant
  // ---------------------------------------------------------------------

  /** The row pointer agrees with the current order and row, and the pending
      order and break row are the default ones until an effect sets them. */
  ghost predicate Inv(s: SongData, p: Pos) {
    && |p.loops| == CHANNELS && p.speed < 256
    && (forall c | 0 <= c < CHANNELS :: p.loops[c].pos <= ROWS && p.loops[c].count <= 15)
    && (p.playing ==>
          && p.curOrder < |s.order| && p.ptrPattern == s.order[p.curOrder]
          && p.curRow <= ROWS
          && (p.curRow < ROWS ==> p.ptrRow == p.curRow && p.nextOrder == p.curOrder + 1 && p.breakRow == 0))
  }

  // ---------------------------------------------------------------------
  // The simple next-position function
  // ---------------------------------------------------------------------

  datatype Place = At(order: nat, row: nat) | End

  predicate IsLoopEnd(cell: Cell) { cell.effect == 0xE && cell.param / 16 == 6 && cell.param % 16 > 0 }

  predicate IsLoopStart(cell: Cell) { cell.effect == 0xE && cell.param / 16 == 6 && cell.param % 16 == 0 }

  /** An E6n that sends play back: its counter is not at the last pass. */
  predicate LoopsBack(cell: Cell, l: Loop) { IsLoopEnd(cell) && l.count != 1 }

  predicate Jumps(cell: Cell, l: Loop) { cell.effect == 0xB || cell.effect == 0xD || LoopsBack(cell, l) }

  /** Does any of the first n channels jump? */
  predicate AnyJump(row: Row, loops: seq<Loop>, n: nat)
    requires n <= CHANNELS == |loops|
  {
    exists c: nat | c < n :: Jumps(row[c], loops[c])
  }

  /** The order to continue with: the last Bxx or looping E6n decides. */
  function TargetOrder(row: Row, loops: seq<Loop>, o: nat, n: nat): nat
    requires n <= CHANNELS == |loops|
  {
    if n == 0 then o + 1
    else if row[n - 1].effect == 0xB then row[n - 1].param
    else if LoopsBack(row[n - 1], loops[n - 1]) then o
    else TargetOrder(row, loops, o, n - 1)
  }

  /** The row to continue with: the last Dxx or looping E6n decides. */
  function TargetRow(row: Row, loops: seq<Loop>, n: nat): nat
    requires n <= CHANNELS == |loops|
  {
    if n == 0 then 0
    else if row[n - 1].effect == 0xD then row[n - 1].param
    else if LoopsBack(row[n - 1], loops[n - 1]) then loops[n - 1].pos
    else TargetRow(row, loops, n - 1)
  }

  /** The place after row r of order o. */
  function Successor(s: SongData, o: nat, r: nat, loops: seq<Loop>): Place
    requires o < |s.order| && s.order[o] < |s.patterns| && r < |s.patterns[s.order[o]]| && |loops| == CHANNELS
  {
    var row := s.patterns[s.order[o]][r];
    var (order, next) :=
      if AnyJump(row, loops, CHANNELS) then (TargetOrder(row, loops, o, CHANNELS), TargetRow(row, loops, CHANNELS))
      else if r + 1 < ROWS then (o, r + 1)
      else (o + 1, 0);
    if order >= |s.order| then End else At(order, if next >= ROWS then 0 else next)
  }

  /** The loop memory after row r: E60 stores the following row (or 64 if an
      earlier channel jumps), E6n counts its passes. */
  function LoopsAfter(row: Row, loops: seq<Loop>, r: nat, c: nat): Loop
    requires c < CHANNELS == |loops|
  {
    if IsLoopStart(row[c]) then loops[c].(pos := if AnyJump(row, loops, c) then ROWS else r + 1)
    else if IsLoopEnd(row[c]) then
      loops[c].(count := if loops[c].count == 0 then row[c].param % 16 else loops[c].count - 1)
    else loops[c]
  }

  /** The place whose row the next row tick plays. */
  function Upcoming(s: SongData, p: Pos): Place {
    if !p.playing then End
    else if p.curRow < ROWS then At(p.curOrder, p.curRow)
    else if p.nextOrder >= |s.order| then End
    else At(p.nextOrder, if p.breakRow >= ROWS then 0 else p.breakRow)
  }

  // ---------------------------------------------------------------------
  // Refinement
  // ---------------------------------------------------------------------

  /** The fields after the first n channels of the row at (o, r). */
  ghost predicate RowSoFar(p: Pos, q: Pos, row: Row, o: nat, r: nat, n: nat)
    requires |p.loops| == CHANNELS && n <= CHANNELS
  {
    && |q.loops| == CHANNELS
    && q.curRow == (if AnyJump(row, p.loops, n) then ROWS else r + 1)
    && q.nextOrder == TargetOrder(row, p.loops, o, n)
    && q.breakRow == TargetRow(row, p.loops, n)
    && q.playing == p.playing && q.curOrder == p.curOrder && q.ptrPattern == p.ptrPattern && q.ptrRow == p.ptrRow
    && q.tick == p.tick && (p.speed < 256 ==> q.speed < 256)
    && (forall c: nat | c < n :: q.loops[c] == LoopsAfter(row, p.loops, r, c))
    && (forall c: nat | n <= c < CHANNELS :: q.loops[c] == p.loops[c])
  }

  lemma {:induction false} RowEffectsSoFar(p: Pos, row: Row, r: nat, n: nat)
    requires |p.loops| == CHANNELS && n <= CHANNELS
    requires p.curRow == r + 1 && p.nextOrder == p.curOrder + 1 && p.breakRow == 0
    ensures RowSoFar(p, RowEffects(p, row, n), row, p.curOrder, r, n)
  {
    if n > 0 {
      RowEffectsSoFar(p, row, r, n - 1);
      AnyJumpSnoc(row, p.loops, n);
    }
  }

  lemma AnyJumpSnoc(row: Row, loops: seq<Loop>, n: nat)
    requires 0 < n <= CHANNELS == |loops|
    ensures AnyJump(row, loops, n) <==> AnyJump(row, loops, n - 1) || Jumps(row[n - 1], loops[n - 1])
  {
  }

  lemma {:induction false} NoJumpTargets(row: Row, loops: seq<Loop>, o: nat, n: nat)
    requires n <= CHANNELS == |loops|
    ensures !AnyJump(row, loops, n) ==> TargetOrder(row, loops, o, n) == o + 1 && TargetRow(row, loops, n) == 0
  {
    if n > 0 {
      NoJumpTargets(row, loops, o, n - 1);
      AnyJumpSnoc(row, loops, n);
    }
  }

  /** Processing the row at (o, r) leads to its successor. */
  lemma ProcessRowRefines(s: SongData, p: Pos, o: nat, r: nat)
    requires WellFormed(s) && |p.loops| == CHANNELS && p.playing && p.speed < 256
    requires o < |s.order| && r < ROWS && p.curOrder == o && p.ptrPattern == s.order[o] && p.ptrRow == r
    requires p.curRow == r + 1 && p.nextOrder == o + 1 && p.breakRow == 0
    requires forall c | 0 <= c < CHANNELS :: p.loops[c].pos <= ROWS && p.loops[c].count <= 15
    ensures var q := ProcessRow(s, p);
            && Inv(s, q) && q.playing && q.tick == p.tick
            && q.ptrPattern == s.order[o] && q.ptrRow == r + 1
            && Upcoming(s, q) == Successor(s, o, r, p.loops)
            && forall c | 0 <= c < CHANNELS :: q.loops[c] == LoopsAfter(s.patterns[s.order[o]][r], p.loops, r, c)
  {
    hide RowEffects, TargetOrder, TargetRow;
    var row := s.patterns[s.order[o]][r];
    RowEffectsSoFar(p, row, r, CHANNELS);
    NoJumpTargets(row, p.loops, o, CHANNELS);
    hide AnyJump;
  }

  /** A row tick plays the upcoming row, which exists in the song, and leads to
      its successor; at the end of the song it stops. */
  lemma RowTickRefines(s: SongData, p: Pos)
    requires WellFormed(s) && Inv(s, p) && p.playing
    ensures var q := RowTick(s, p);
            && Inv(s, q) && q.tick == p.tick
            && (Upcoming(s, p) == End ==> !q.playing && q.loops == p.loops)
            && (Upcoming(s, p) != End ==>
                  var (o, r) := (Upcoming(s, p).order, Upcoming(s, p).row);
                  && o < |s.order| && r < ROWS
                  && q.ptrPattern == s.order[o] && q.ptrRow == r + 1
                  && Upcoming(s, q) == Successor(s, o, r, p.loops)
                  && forall c | 0 <= c < CHANNELS :: q.loops[c] == LoopsAfter(s.patterns[s.order[o]][r], p.loops, r, c))
  {
    hide ProcessRow, Successor, LoopsAfter;
    if p.curRow < ROWS {
      ProcessRowRefines(s, p.(curRow := p.curRow + 1), p.curOrder, p.curRow);
    } else if p.nextOrder < |s.order| {
      var q := Seek(s, p.(curRow := p.curRow + 1), p.nextOrder, p.breakRow);
      ProcessRowRefines(s, q.(curRow := q.curRow + 1), p.nextOrder, q.curRow);
    }
  }

  // ---------------------------------------------------------------------
  // Whole runs
  // ---------------------------------------------------------------------

  datatype RowState = RowState(place: Place, loops: seq<Loop>)

  ghost predicate Placed(s: SongData, st: RowState) {
    |st.loops| == CHANNELS && (st.place.At? ==> st.place.order < |s.order| && st.place.row < ROWS)
  }

  /** Play the row at the current place. */
  function RowStep(s: SongData, st: RowState): RowState
    requires WellFormed(s) && Placed(s, st)
  {
    match st.place
    case End => st
    case At(o, r) =>
      var row := s.patterns[s.order[o]][r];
      var l := st.loops;
      RowState(Successor(s, o, r, l),
               [LoopsAfter(row, l, r, 0), LoopsAfter(row, l, r, 1), LoopsAfter(row, l, r, 2), LoopsAfter(row, l, r, 3)])
  }

  lemma RowStepPlaced(s: SongData, st: RowState)
    requires WellFormed(s) && Placed(s, st)
    ensures Placed(s, RowStep(s, st))
  {
    hide AnyJump, TargetOrder, TargetRow, LoopsAfter;
  }

  /** The state after n rows. */
  function Visit(s: SongData, st: RowState, n: nat): (r: RowState)
    requires WellFormed(s) && Placed(s, st)
    ensures Placed(s, r) && |r.loops| == CHANNELS
    decreases n
  {
    if n == 0 then st else
      var before := Visit(s, st, n - 1);
      RowStepPlaced(s, before);
      RowStep(s, before)
  }

  function Summary(s: SongData, p: Pos): RowState { RowState(Upcoming(s, p), p.loops) }

  lemma TickRefines(s: SongData, p: Pos)
    requires WellFormed(s) && Inv(s, p)
    ensures Inv(s, Tick(s, p)) && Placed(s, Summary(s, p)) && Placed(s, Summary(s, Tick(s, p)))
    ensures Summary(s, Tick(s, p)) == if PlaysRow(p) then RowStep(s, Summary(s, p)) else Summary(s, p)
  {
    hide RowTick, Successor, LoopsAfter;
    if p.playing {
      RowTickRefines(s, p.(tick := 0));
      var q := RowTick(s, p.(tick := 0));
      assert q.loops == [q.loops[0], q.loops[1], q.loops[2], q.loops[3]];
    }
  }

  /** n updates. */
  function Ticks(s: SongData, p: Pos, n: nat): (q: Pos)
    requires WellFormed(s) && Inv(s, p)
    ensures Inv(s, q)
    decreases n
  {
    if n == 0 then p else
      var before := Ticks(s, p, n - 1);
      TickRefines(s, before);
      Tick(s, before)
  }

  /** How many rows n updates play. */
  function RowsPlayed(s: SongData, p: Pos, n: nat): nat
    requires WellFormed(s) && Inv(s, p)
  {
    if n == 0 then 0 else RowsPlayed(s, p, n - 1) + if PlaysRow(Ticks(s, p, n - 1)) then 1 else 0
  }

  /** Over every run: the invariant holds, every row that is played exists in
      the song, and the places visited are those of the next-position function. */
  lemma {:induction false} RunRefines(s: SongData, p: Pos, n: nat)
    requires WellFormed(s) && Inv(s, p)
    ensures Placed(s, Summary(s, p)) && Inv(s, Ticks(s, p, n))
    ensures Summary(s, Ticks(s, p, n)) == Visit(s, Summary(s, p), RowsPlayed(s, p, n))
  {
    hide RowStep, Tick, PlaysRow, Inv, Summary;
    TickRefines(s, p);
    if n > 0 {
      RunRefines(s, p, n - 1);
      TickRefines(s, Ticks(s, p, n - 1));
    }
  }

  /** The fields as play() clears them. */
  const Cleared: Pos :=
    Pos(true, 0, 6, 0, 0, 0, 0, 0, 0, 0, [Loop(0, 0), Loop(0, 0), Loop(0, 0), Loop(0, 0)])

  /** play() starts at row 0 of order 0. */
  function Started(s: SongData): Pos
    requires WellFormed(s)
  {
    Seek(s, Cleared, 0, 0)
  }

  lemma StartedInv(s: SongData)
    requires WellFormed(s)
    ensures Inv(s, Started(s)) && Upcoming(s, Started(s)) == if s.order == [] then End else At(0, 0)
  {
  }

  // ---------------------------------------------------------------------
  // Pattern loops
  // ---------------------------------------------------------------------

  /** A row that neither jumps nor moves the loop start of channel c. */
  ghost predicate PlainRow(row: Row, c: nat)
    requires c < CHANNELS
  {
    !IsLoopStart(row[c]) && forall d: nat | d < CHANNELS :: row[d].effect != 0xB && row[d].effect != 0xD && !IsLoopEnd(row[d])
  }

  /** Row e of order o: channel c ends an n-fold loop and nothing else jumps. */
  ghost predicate LoopRow(row: Row, c: nat, n: nat)
    requires c < CHANNELS
  {
    IsLoopEnd(row[c]) && row[c].param % 16 == n &&
    forall d: nat | d < CHANNELS && d != c :: row[d].effect != 0xB && row[d].effect != 0xD && !IsLoopEnd(row[d])
  }

  /** Rows first .. last of order o form an n-fold loop of channel c. */
  ghost predicate LoopSection(s: SongData, o: nat, first: nat, last: nat, c: nat, n: nat)
    requires WellFormed(s)
  {
    && o < |s.order| && first <= last < ROWS && c < CHANNELS && n > 0
    && (forall r | first <= r < last :: PlainRow(s.patterns[s.order[o]][r], c))
    && LoopRow(s.patterns[s.order[o]][last], c, n)
  }

  lemma PlainStep(s: SongData, st: RowState, c: nat)
    requires WellFormed(s) && Placed(s, st) && st.place.At? && c < CHANNELS
    requires PlainRow(s.patterns[s.order[st.place.order]][st.place.row], c) && st.place.row + 1 < ROWS
    ensures RowStep(s, st).place == At(st.place.order, st.place.row + 1)
    ensures RowStep(s, st).loops[c] == st.loops[c]
  {
  }

  /** i rows into the section. */
  lemma {:induction false} SectionWalk(s: SongData, st: RowState, o: nat, first: nat, last: nat, c: nat, n: nat, i: nat)
    requires WellFormed(s) && Placed(s, st) && LoopSection(s, o, first, last, c, n)
    requires st.place == At(o, first) && i <= last - first
    ensures Visit(s, st, i).place == At(o, first + i) && Visit(s, st, i).loops[c] == st.loops[c]
  {
    hide RowStep, PlainRow, LoopRow;
    if i > 0 {
      SectionWalk(s, st, o, first, last, c, n, i - 1);
      PlainStep(s, Visit(s, st, i - 1), c);
    }
  }

  /** The last row of the section: back to the start, or on. */
  lemma LoopStep(s: SongData, st: RowState, o: nat, first: nat, last: nat, c: nat, n: nat)
    requires WellFormed(s) && Placed(s, st) && LoopSection(s, o, first, last, c, n)
    requires st.place == At(o, last) && st.loops[c].pos == first
    ensures var l := st.loops[c];
            && RowStep(s, st).loops[c] == Loop(first, if l.count == 0 then n else l.count - 1)
            && RowStep(s, st).place == if l.count != 1 then At(o, first) else AfterSection(s, o, last)
  {
    var row := s.patterns[s.order[o]][last];
    if st.loops[c].count != 1 {
      LoopTargets(row, st.loops, o, c, n, CHANNELS);
      assert Jumps(row[c], st.loops[c]);
    }
    hide TargetOrder, TargetRow;
  }

  lemma {:induction false} LoopTargets(row: Row, loops: seq<Loop>, o: nat, c: nat, n: nat, k: nat)
    requires c < k <= CHANNELS == |loops| && LoopRow(row, c, n) && loops[c].count != 1
    ensures TargetOrder(row, loops, o, k) == o && TargetRow(row, loops, k) == loops[c].pos
  {
    if k > c + 1 { LoopTargets(row, loops, o, c, n, k - 1); }
  }

  function AfterSection(s: SongData, o: nat, last: nat): Place {
    if last + 1 < ROWS then At(o, last + 1)
    else if o + 1 < |s.order| then At(o + 1, 0) else End
  }

  lemma {:induction false} VisitCompose(s: SongData, st: RowState, a: nat, b: nat)
    requires WellFormed(s) && Placed(s, st)
    ensures Visit(s, st, a + b) == Visit(s, Visit(s, st, a), b)
    decreases b
  {
    hide RowStep;
    if b > 0 {
      VisitCompose(s, st, a, b - 1);
      assert a + b - 1 == a + (b - 1);
    }
  }

  lemma SectionFacts(s: SongData, st: RowState, o: nat, first: nat, last: nat, c: nat, n: nat)
    requires WellFormed(s) && Placed(s, st) && LoopSection(s, o, first, last, c, n)
    ensures o < |s.order| && first <= last < ROWS && c < CHANNELS == |st.loops| && n > 0
  {
  }

  /** E60 never marks its own row as the start of the loop: the field is set
      from a row counter that has already moved on to the next row, or to 64
      when an earlier channel jumps. */
  lemma LoopStartMarksNextRow(s: SongData, st: RowState, c: nat)
    requires WellFormed(s) && Placed(s, st) && st.place.At? && c < CHANNELS
    requires var row := s.patterns[s.order[st.place.order]][st.place.row];
             IsLoopStart(row[c])
    ensures var row := s.patterns[s.order[st.place.order]][st.place.row];
            && RowStep(s, st).loops[c]
            == Loop(if AnyJump(row, st.loops, c) then ROWS else st.place.row + 1, st.loops[c].count)
            && RowStep(s, st).loops[c].pos > st.place.row
            && (!AnyJump(row, st.loops, CHANNELS) && st.place.row + 1 < ROWS ==>
                  RowStep(s, st).place == At(st.place.order, st.place.row + 1))
  {
    hide TargetOrder, TargetRow, AnyJump;
  }

  /** The rows of m passes through a section of len rows. */
  function Passes(m: nat, len: nat): nat
    decreases m
  {
    if m == 0 then 0 else Passes(m - 1, len) + len
  }

  /** Pass m (from 0) of an E6n loop starts at row `first` with its counter
      set, for every m up to n; after pass n play continues behind the loop. */
  lemma {:induction false} LoopPasses(s: SongData, st: RowState, o: nat, first: nat, last: nat, c: nat, n: nat, m: nat)
    requires WellFormed(s) && Placed(s, st) && LoopSection(s, o, first, last, c, n)
    requires st.place == At(o, first) && st.loops[c] == Loop(first, 0) && m <= n + 1
    ensures var v := Visit(s, st, Passes(m, last - first + 1));
            && v.place == (if m <= n then At(o, first) else AfterSection(s, o, last))
            && v.loops[c] == Loop(first, if m == 0 || m == n + 1 then 0 else n + 1 - m)
    decreases m
  {
    hide RowStep, LoopSection, Visit, WellFormed, Placed, AfterSection;
    SectionFacts(s, st, o, first, last, c, n);
    var len := last - first + 1;
    if m > 0 {
      LoopPasses(s, st, o, first, last, c, n, m - 1);
      var v := Visit(s, st, Passes(m - 1, len));
      OnePass(s, v, o, first, last, c, n);
      VisitCompose(s, st, Passes(m - 1, len), len);
    } else {
      VisitNone(s, st);
    }
  }

  lemma VisitNone(s: SongData, st: RowState)
    requires WellFormed(s) && Placed(s, st)
    ensures Visit(s, st, 0) == st
  {
  }

  lemma OnePass(s: SongData, st: RowState, o: nat, first: nat, last: nat, c: nat, n: nat)
    requires WellFormed(s) && Placed(s, st) && LoopSection(s, o, first, last, c, n)
    requires st.place == At(o, first) && st.loops[c].pos == first
    ensures var v, l := Visit(s, st, last - first + 1), st.loops[c];
            && v.loops[c] == Loop(first, if l.count == 0 then n else l.count - 1)
            && v.place == if l.count != 1 then At(o, first) else AfterSection(s, o, last)
  {
    hide RowStep;
    SectionWalk(s, st, o, first, last, c, n, last - first);
    LoopStep(s, Visit(s, st, last - first), o, first, last, c, n);
  }

  /** An E6n loop plays its rows exactly n+1 times, in order. */
  lemma LoopPlaysRows(s: SongData, st: RowState, o: nat, first: nat, last: nat, c: nat, n: nat, m: nat, i: nat)
    requires WellFormed(s) && Placed(s, st) && LoopSection(s, o, first, last, c, n)
    requires st.place == At(o, first) && st.loops[c] == Loop(first, 0) && m <= n && i <= last - first
    ensures Visit(s, st, Passes(m, last - first + 1) + i).place == At(o, first + i)
    ensures Visit(s, st, Passes(n + 1, last - first + 1)).place == AfterSection(s, o, last)
  {
    hide RowStep, LoopSection, Visit, WellFormed, Placed, AfterSection, Passes;
    SectionFacts(s, st, o, first, last, c, n);
    var k := Passes(m, last - first + 1);
    LoopPasses(s, st, o, first, last, c, n, m);
    LoopPasses(s, st, o, first, last, c, n, n + 1);
    SectionWalk(s, Visit(s, st, k), o, first, last, c, n, i);
    VisitCompose(s, st, k, i);
  }
}
