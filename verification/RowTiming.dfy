/**
 How long a row of the MOD player lasts, read off its cells: speed (F00-F1F) and
 pattern delay (EEx) of apps/modPlayer/modPlayer.cpp, and where single effects
 send the song.
 */
module RowTiming {
  import opened Arithmetic
  import opened Sequencer

  /** The speed a row leaves: its last F00-F1F, or the one before. */
  function LastSpeed(row: Row, n: nat, before: nat): nat
    requires n <= CHANNELS
  {
    if n == 0 then before
    else if row[n - 1].effect == 0xF && row[n - 1].param <= 0x1F then row[n - 1].param
    else LastSpeed(row, n - 1, before)
  }

  /** The pattern delay a row leaves: its last EEx, or the one before. */
  function LastDelay(row: Row, n: nat, before: nat): nat
    requires n <= CHANNELS
  {
    if n == 0 then before
    else if row[n - 1].effect == 0xE && 0xE0 <= row[n - 1].param <= 0xEF then row[n - 1].param - 0xE0
    else LastDelay(row, n - 1, before)
  }

  lemma {:induction false} EffectsTiming(p: Pos, row: Row, n: nat)
    requires n <= CHANNELS <= |p.loops| && forall c | 0 <= c < CHANNELS :: row[c].param < 256
    ensures var q := RowEffects(p, row, n);
            q.speed == LastSpeed(row, n, p.speed) && q.patDelay == LastDelay(row, n, p.patDelay) && q.tick == p.tick
  {
    if n > 0 { EffectsTiming(p, row, n - 1); }
  }

  /** The row a row tick plays. */
  function RowAt(s: SongData, p: Place): Row
    requires WellFormed(s) && p.At? && p.order < |s.order| && p.row < ROWS
  {
    s.patterns[s.order[p.order]][p.row]
  }

  /** What a tick that plays a row leaves. */
  lemma RowLeaves(s: SongData, p: Pos)
    requires WellFormed(s) && Inv(s, p) && PlaysRow(p) && Upcoming(s, p).At?
    ensures var place, q := Upcoming(s, p), Tick(s, p);
            && place.order < |s.order| && place.row < ROWS && Inv(s, q)
            && q.playing && q.tick == 0
            && q.speed == LastSpeed(RowAt(s, place), CHANNELS, p.speed)
            && q.patDelay == LastDelay(RowAt(s, place), CHANNELS, 0)
  {
    TickRefines(s, p);
    RowTickRefines(s, p.(tick := 0));
    hide Successor, LoopsAfter, RowEffects;
    var p0 := p.(tick := 0);
    if p.curRow < ROWS {
      RowProcessed(s, p0.(curRow := p.curRow + 1));
    } else {
      var q := Seek(s, p0.(curRow := p.curRow + 1), p.nextOrder, p.breakRow);
      RowProcessed(s, q.(curRow := q.curRow + 1));
    }
  }

  lemma RowProcessed(s: SongData, p: Pos)
    requires WellFormed(s) && |p.loops| == CHANNELS
    requires p.ptrPattern < |s.patterns| && p.ptrRow < ROWS
    ensures var q, row := ProcessRow(s, p), s.patterns[p.ptrPattern][p.ptrRow];
            && q.playing == p.playing && q.tick == p.tick
            && q.speed == LastSpeed(row, CHANNELS, p.speed) && q.patDelay == LastDelay(row, CHANNELS, p.patDelay)
  {
    var row := s.patterns[p.ptrPattern][p.ptrRow];
    EffectsTiming(p, row, CHANNELS);
    EffectsPlaying(p, row, CHANNELS);
    hide RowEffects;
  }

  lemma {:induction false} EffectsPlaying(p: Pos, row: Row, n: nat)
    requires n <= CHANNELS <= |p.loops|
    ensures RowEffects(p, row, n).playing == p.playing
  {
    if n > 0 { EffectsPlaying(p, row, n - 1); }
  }

  /** Ticks per turn of the tick counter. */
  function PerTurn(speed: nat): nat { if speed == 0 then 1 else speed }

  /** j ticks after a row with some delay left. */
  lemma {:induction false} Waiting(s: SongData, q: Pos, j: nat)
    requires WellFormed(s) && Inv(s, q) && q.playing && q.tick == 0
    requires j < (q.patDelay + 1) * PerTurn(q.speed)
    ensures 0 <= j / PerTurn(q.speed) <= q.patDelay
    ensures Ticks(s, q, j) == q.(tick := j % PerTurn(q.speed), patDelay := q.patDelay - j / PerTurn(q.speed))
  {
    hide Inv, WellFormed, RowTick, Ticks, Tick, PerTurn;
    var m, d := PerTurn(q.speed), q.patDelay;
    PerTurnPositive(q.speed);
    TurnsBound(j, m, d);
    if j == 0 {
      ModSmall(0, m);
      TicksNone(s, q);
    } else {
      Waiting(s, q, j - 1);
      NextInTurn(j - 1, m);
      ModBound(j - 1, m);
      TickOnce(s, q, (j - 1) % m, d - (j - 1) / m);
      TicksSnoc(s, q, j);
    }
  }

  lemma PerTurnPositive(speed: nat)
    ensures PerTurn(speed) >= 1
  {
  }

  lemma TicksNone(s: SongData, q: Pos)
    requires WellFormed(s) && Inv(s, q)
    ensures Ticks(s, q, 0) == q
  {
  }

  lemma TicksSnoc(s: SongData, q: Pos, j: nat)
    requires WellFormed(s) && Inv(s, q) && j > 0
    ensures Ticks(s, q, j) == Tick(s, Ticks(s, q, j - 1))
  {
  }

  /** One tick that does not play a row. */
  lemma TickOnce(s: SongData, q: Pos, t: nat, d: nat)
    requires WellFormed(s) && Inv(s, q) && q.playing && t < PerTurn(q.speed)
    requires t + 1 == PerTurn(q.speed) ==> d > 0
    ensures var p := q.(tick := t, patDelay := d);
            Inv(s, p) &&
            Tick(s, p) == if t + 1 < PerTurn(q.speed) then p.(tick := t + 1) else p.(tick := 0, patDelay := d - 1)
  {
    hide RowTick;
  }

  lemma TurnsBound(j: nat, m: nat, d: nat)
    requires m > 0 && j < (d + 1) * m
    ensures 0 <= j / m <= d
  {
    DivGreatest(j, m, 0);
    assert j == j / m * m + j % m;
    MulAtLeast(j / m - (d + 1), m);
    assert (j / m - (d + 1)) * m == j / m * m - (d + 1) * m;
  }

  lemma NextInTurn(j: nat, m: nat)
    requires m > 0
    ensures if j % m + 1 == m then (j + 1) % m == 0 && (j + 1) / m == j / m + 1
            else (j + 1) % m == j % m + 1 && (j + 1) / m == j / m
  {
    assert j == j / m * m + j % m;
    if j % m + 1 == m {
      DivModUnique(j + 1, m, j / m + 1, 0);
    } else {
      DivModUnique(j + 1, m, j / m, j % m + 1);
    }
  }

  /** The length of a row: after a row that leaves speed v and delay d, the next
      row tick comes exactly (d + 1) * max(v, 1) ticks later, and none of the
      ticks between plays a row. */
  lemma RowLasts(s: SongData, p: Pos, j: nat)
    requires WellFormed(s) && Inv(s, p) && PlaysRow(p) && Upcoming(s, p).At?
    ensures var place := Upcoming(s, p);
            && place.order < |s.order| && place.row < ROWS && Inv(s, Tick(s, p))
            && var row := RowAt(s, place);
               var v, d := LastSpeed(row, CHANNELS, p.speed), LastDelay(row, CHANNELS, 0);
               var length := (d + 1) * if v == 0 then 1 else v;
               1 <= j <= length ==> (PlaysRow(Ticks(s, Tick(s, p), j - 1)) <==> j == length)
  {
    hide Inv, WellFormed, Tick, Ticks, PlaysRow, Upcoming, LastSpeed, LastDelay, RowAt;
    RowLeaves(s, p);
    var q := Tick(s, p);
    if 1 <= j <= (q.patDelay + 1) * PerTurn(q.speed) { QuietUntil(s, q, j); }
  }

  /** From a fresh turn of the counter. */
  lemma QuietUntil(s: SongData, q: Pos, j: nat)
    requires WellFormed(s) && Inv(s, q) && q.playing && q.tick == 0
    requires 1 <= j <= (q.patDelay + 1) * PerTurn(q.speed)
    ensures PlaysRow(Ticks(s, q, j - 1)) <==> j == (q.patDelay + 1) * PerTurn(q.speed)
  {
    hide WellFormed, Ticks;
    var m, d := PerTurn(q.speed), q.patDelay;
    Waiting(s, q, j - 1);
    LastOfTurns(j - 1, m, d);
    ModBound(j - 1, m);
    TurnEnds((j - 1) % m, q.speed);
  }

  lemma TurnEnds(t: nat, speed: nat)
    requires speed < 256 && t < PerTurn(speed)
    ensures (t + 1) % 256 >= speed <==> t + 1 == PerTurn(speed)
  {
  }

  lemma ModBound(j: nat, m: nat)
    requires m > 0
    ensures 0 <= j % m < m
  {
  }

  lemma LastOfTurns(j: nat, m: nat, d: nat)
    requires m > 0 && j < (d + 1) * m
    ensures j % m + 1 == m && j / m == d <==> j + 1 == (d + 1) * m
  {
    assert j == j / m * m + j % m;
    if j + 1 == (d + 1) * m {
      assert (d + 1) * m == d * m + m;
      DivModUnique(j, m, d, m - 1);
    }
    if j / m == d { assert (d + 1) * m == d * m + m; }
  }

  // ---------------------------------------------------------------------
  // Jumps and breaks
  // ---------------------------------------------------------------------

  /** A cell that does not send the song anywhere: no Bxx, Dxx or E61-E6F. */
  predicate Stays(cell: Cell) {
    cell.effect != 0xB && cell.effect != 0xD && !(cell.effect == 0xE && 0x61 <= cell.param <= 0x6F)
  }

  /** The row has at most one Bxx, in channel b, and at most one Dxx, in channel
      d, and nothing else that sends the song; no channel is number 4. */
  ghost predicate OnlyAt(row: Row, b: nat, d: nat) {
    && (b < CHANNELS ==> row[b].effect == 0xB) && (d < CHANNELS ==> row[d].effect == 0xD)
    && forall c: nat | c < CHANNELS && c != b && c != d :: Stays(row[c])
  }

  lemma {:induction false} TargetsAt(row: Row, loops: seq<Loop>, o: nat, n: nat, b: nat, d: nat)
    requires n <= CHANNELS == |loops| && OnlyAt(row, b, d)
    ensures TargetOrder(row, loops, o, n) == if b < n then row[b].param else o + 1
    ensures TargetRow(row, loops, n) == if d < n then row[d].param else 0
    ensures AnyJump(row, loops, n) <==> b < n || d < n
  {
    if n > 0 {
      TargetsAt(row, loops, o, n - 1, b, d);
      AnyJumpSnoc(row, loops, n);
    }
  }

  /** Where a row leads: on to the next row, or to row 0 of the next order after
      the last; with Bxx to row 0 of order xx, with Dxx to row xx of the next
      order, with both to row yy of order xx; a row past 63 is row 0, and an
      order past the last ends the song. */
  lemma RowLeadsTo(s: SongData, o: nat, r: nat, loops: seq<Loop>, b: nat, d: nat)
    requires WellFormed(s) && o < |s.order| && r < ROWS && |loops| == CHANNELS
    requires OnlyAt(s.patterns[s.order[o]][r], b, d)
    ensures var row := s.patterns[s.order[o]][r];
            var next := Successor(s, o, r, loops);
            if b >= CHANNELS && d >= CHANNELS && r < 63 then next == At(o, r + 1)
            else
              var order := if b < CHANNELS then row[b].param else o + 1;
              var to := if d < CHANNELS && row[d].param < 64 then row[d].param else 0;
              next == if order < |s.order| then At(order, to) else End
  {
    TargetsAt(s.patterns[s.order[o]][r], loops, o, CHANNELS, b, d);
    hide TargetOrder, TargetRow, AnyJump;
  }
}
