/**
 When the MOD player ticks: update of apps/modPlayer/modPlayer.cpp as a
 function of the song, the position, the tempo and the time left until the next
 tick.  Times have 12 fractional bits.  Songs may set the tempo at any row.
 */
module Schedule {
  import opened Arithmetic
  import opened Sequencer

  const MIX_FREQ: nat := 31536
  const DEFAULT_TEMPO: nat := 125
  const SAMPLE: nat := 4096        // one sample

  // ---------------------------------------------------------------------
  // Tempos
  // ---------------------------------------------------------------------

  /** Tempos an effect can set. */
  predicate IsTempo(t: nat) { 32 <= t <= 255 }

  /** Length of a tick. */
  function TickLength(tempo: nat): (r: nat)
    requires tempo > 0
  {
    QuotientBound(MIX_FREQ * 5 * SAMPLE, tempo * 2, 0);
    MIX_FREQ * 5 * SAMPLE / (tempo * 2)
  }

  lemma QuotientBound(x: nat, d: nat, q: nat)
    requires d > 0 && q * d <= x
    ensures q <= x / d <= x
  {
    DivGreatest(x, d, q);
    var k := x / d;
    assert x == k * d + x % d;
    DivGreatest(x, d, 0);
    MulNonNegative(k, d - 1);
    assert k * d == k * (d - 1) + k;
  }

  /** Every tempo leaves at least one sample per tick, and the dividend fits a
      signed 32-bit word. */
  lemma TickLengthBound(tempo: nat)
    requires IsTempo(tempo)
    ensures 1266386 <= TickLength(tempo) < 0x8000_0000
  {
    QuotientBound(MIX_FREQ * 5 * SAMPLE, tempo * 2, 1266386);
  }

  /** The length is the floor of 322928640 / tempo. */
  lemma TickLengthBrackets(tempo: nat)
    requires IsTempo(tempo)
    ensures TickLength(tempo) * tempo <= 322928640 < TickLength(tempo) * tempo + tempo
  {
    var q := TickLength(tempo);
    var d := tempo * 2;
    assert MIX_FREQ * 5 * SAMPLE == q * d + MIX_FREQ * 5 * SAMPLE % d;
    assert q * d == 2 * (q * tempo);
  }

  lemma NonNegativeIf(x: int, y: int)
    ensures x >= 0 && y >= 0 ==> x * y >= 0
  {
  }

  /** Faster tempos have strictly shorter ticks. */
  lemma TickLengthStrict(a: nat, b: nat)
    requires IsTempo(a) && IsTempo(b) && a < b
    ensures TickLength(b) < TickLength(a)
  {
    TickLengthBrackets(a);
    TickLengthBrackets(b);
    TickLengthBound(b);
    hide TickLength;
    var p, q := TickLength(a), TickLength(b);
    NonNegativeIf(q - p, a);
    assert (q - p) * a == q * a - p * a;
    MulNonNegative(q, b - a - 1);
    assert q * (b - a - 1) == q * b - q * a - q;
  }

  predicate SetsTempo(cell: Cell) { cell.effect == 0xF && cell.param >= 32 }

  /** The tempo after the first n channels of a row: the last one set. */
  function TempoAfter(tempo: nat, row: Row, n: nat): nat
    requires n <= CHANNELS
  {
    if n == 0 then tempo
    else if SetsTempo(row[n - 1]) then row[n - 1].param
    else TempoAfter(tempo, row, n - 1)
  }

  lemma {:induction false} TempoAfterIs(tempo: nat, row: Row, n: nat)
    requires n <= CHANNELS
    ensures TempoAfter(tempo, row, n) == tempo ||
            exists c | 0 <= c < n :: SetsTempo(row[c]) && TempoAfter(tempo, row, n) == row[c].param
  {
    if n > 0 { TempoAfterIs(tempo, row, n - 1); }
  }

  /** The last Fxx of a row with xx from 20 on sets the tempo. */
  lemma {:induction false} TempoIsLast(tempo: nat, row: Row, n: nat, c: nat)
    requires n <= CHANNELS
    requires c < n ==> row[c].effect == 0xF && row[c].param >= 0x20
    requires forall d: nat | d < n && (d > c || c >= n) :: row[d].effect != 0xF || row[d].param < 0x20
    ensures TempoAfter(tempo, row, n) == if c < n then row[c].param else tempo
  {
    if n > 0 && c != n - 1 { TempoIsLast(tempo, row, n - 1, c); }
  }

  // ---------------------------------------------------------------------
  // One tick
  // ---------------------------------------------------------------------

  /** The state that decides when ticks come; `wait` is the time until the
      next one. */
  datatype Clock = Clock(pos: Pos, tempo: nat, wait: int)

  ghost predicate Runs(s: SongData, c: Clock) {
    WellFormed(s) && Inv(s, c.pos) && IsTempo(c.tempo)
  }

  /** A row of the song, or the end. */
  predicate OnSong(s: SongData, p: Place) {
    match p
    case End => true
    case At(o, r) => o < |s.order| && s.order[o] < |s.patterns| && r < |s.patterns[s.order[o]]|
  }

  lemma UpcomingOnSong(s: SongData, p: Pos)
    requires WellFormed(s) && Inv(s, p)
    ensures OnSong(s, Upcoming(s, p))
  {
  }

  /** The tempo after the next tick. */
  function NewTempo(s: SongData, p: Pos, tempo: nat): nat
    requires WellFormed(s) && Inv(s, p)
  {
    UpcomingOnSong(s, p);
    if !PlaysRow(p) then tempo
    else
      match Upcoming(s, p)
      case End => tempo
      case At(o, r) => TempoAfter(tempo, s.patterns[s.order[o]][r], CHANNELS)
  }

  lemma NewTempoIsTempo(s: SongData, p: Pos, tempo: nat)
    requires WellFormed(s) && Inv(s, p) && IsTempo(tempo)
    ensures IsTempo(NewTempo(s, p, tempo))
  {
    UpcomingOnSong(s, p);
    if PlaysRow(p) && Upcoming(s, p).At? {
      TempoAfterIs(tempo, s.patterns[s.order[Upcoming(s, p).order]][Upcoming(s, p).row], CHANNELS);
    }
  }

  /** The wait after a tick that came with u < SAMPLE left: MODSetTempo adds
      the change of length, and update adds the new length as well. */
  function AfterTick(u: int, o: nat, n: nat): int
    requires IsTempo(o) && IsTempo(n)
  {
    u - TickLength(o) + TickLength(n) + TickLength(n)
  }

  /** The clock right after the next tick. */
  function Rung(s: SongData, c: Clock): (d: Clock)
    requires Runs(s, c)
    ensures Runs(s, d)
  {
    TickRefines(s, c.pos);
    NewTempoIsTempo(s, c.pos, c.tempo);
    var n := NewTempo(s, c.pos, c.tempo);
    Clock(Tick(s, c.pos), n, AfterTick(c.wait % SAMPLE, c.tempo, n))
  }

  /** Can the wait after a tick with u left, from tempo o to tempo n, be met? */
  predicate Gentle(o: nat, n: nat, u: int)
    requires IsTempo(o)
  {
    n < 2 * o || (n == 2 * o && (TickLength(o) % 2 == 0 || u >= 1))
  }

  /** A tick is followed by one tick length of the new tempo exactly if the
      tempo did not change; it is not followed by a negative wait exactly if
      the tempo did not double, with the rounding of the length at the limit. */
  lemma TempoTickIff(o: nat, n: nat, u: int)
    requires IsTempo(o) && IsTempo(n) && 0 <= u < SAMPLE
    ensures AfterTick(u, o, n) == u + TickLength(n) <==> n == o
    ensures AfterTick(u, o, n) >= 0 <==> Gentle(o, n, u)
  {
    TickLengthBrackets(o);
    TickLengthBrackets(n);
    TickLengthBound(o);
    if n < o { TickLengthStrict(n, o); }
    if o < n { TickLengthStrict(o, n); }
    hide TickLength;
    var p, q := TickLength(o), TickLength(n);
    if n < 2 * o {
      NotDoubled(o, n, p, q);
    } else if n == 2 * o {
      assert q * n == 2 * (q * o);
      Halved(o, p, q);
    } else {
      MoreThanDoubled(o, n, p, q);
    }
  }

  lemma NotDoubled(o: nat, n: nat, p: nat, q: nat)
    requires IsTempo(o) && IsTempo(n) && n < 2 * o && p >= 1266386
    requires p * o <= 322928640 < q * n + n
    ensures 2 * q >= p
  {
    NonNegativeIf(p - 1 - 2 * q, n);
    assert (p - 1 - 2 * q) * n == p * n - n - 2 * (q * n);
    MulNonNegative(p, 2 * o - 1 - n);
    assert p * (2 * o - 1 - n) == 2 * (p * o) - p - p * n;
  }

  lemma Halved(o: nat, p: nat, q: nat)
    requires IsTempo(o)
    requires p * o <= 322928640 < p * o + o
    requires 2 * (q * o) <= 322928640 < 2 * (q * o) + 2 * o
    ensures 2 * q == p - p % 2
  {
    MulAtLeast(2 * q - p, o);
    MulAtLeast(p - 2 * q - 1, o);
    assert (2 * q - p) * o == 2 * (q * o) - p * o;
    assert (p - 2 * q - 1) * o == p * o - 2 * (q * o) - o;
  }

  lemma MoreThanDoubled(o: nat, n: nat, p: nat, q: nat)
    requires IsTempo(o) && IsTempo(n) && n > 2 * o && p >= 1266386
    requires q * n <= 322928640 < p * o + o
    ensures 2 * q + SAMPLE <= p
  {
    var x := p - SAMPLE + 1;
    NonNegativeIf(2 * q - x, n);
    assert (2 * q - x) * n == 2 * (q * n) - x * n;
    MulNonNegative(x, n - 2 * o - 1);
    assert x * (n - 2 * o - 1) == x * n - 2 * (x * o) - x;
    assert x * o == p * o - 4095 * o;
  }

  /** Without a new tempo the next tick is one tick length later. */
  lemma RungKeeps(s: SongData, c: Clock)
    requires Runs(s, c) && NewTempo(s, c.pos, c.tempo) == c.tempo
    ensures Rung(s, c).wait == c.wait % SAMPLE + TickLength(c.tempo) >= SAMPLE
  {
    TickLengthBound(c.tempo);
  }

  /** Two ticks on one sample only come with shorter ticks. */
  lemma RungSoon(s: SongData, c: Clock)
    requires Runs(s, c) && Rung(s, c).wait < SAMPLE
    ensures TickLength(Rung(s, c).tempo) < TickLength(c.tempo)
  {
    NewTempoIsTempo(s, c.pos, c.tempo);
    TickLengthBound(c.tempo);
    hide TickLength;
  }

  // ---------------------------------------------------------------------
  // A stretch of samples
  // ---------------------------------------------------------------------

  /** While playing, the next tick does not lie in the past. */
  predicate Timely(c: Clock) { c.pos.playing ==> c.wait >= 0 }

  /** Does a tick come before the next `left` samples are over? */
  predicate Due(c: Clock, left: nat) { c.pos.playing && c.wait / SAMPLE < left }

  function Soon(c: Clock): nat
    requires IsTempo(c.tempo)
  {
    if c.wait < SAMPLE then TickLength(c.tempo) + 1 else 0
  }

  lemma SoonDecreases(s: SongData, c: Clock, left: nat)
    requires Runs(s, c) && Timely(c) && Due(c, left)
    ensures 0 <= c.wait / SAMPLE < left
    ensures c.wait / SAMPLE == 0 ==> Soon(Rung(s, c)) < Soon(c)
  {
    if Rung(s, c).wait < SAMPLE { RungSoon(s, c); }
    hide Rung, TickLength;
  }

  /** No tick of the next `left` samples leaves a negative wait. */
  ghost predicate OnTime(s: SongData, c: Clock, left: nat)
    requires Runs(s, c)
    decreases left, Soon(c)
  {
    Timely(c) &&
    (Due(c, left) ==>
       (SoonDecreases(s, c, left);
        OnTime(s, Rung(s, c), left - c.wait / SAMPLE)))
  }

  /** The clock `left` samples later. */
  ghost function Elapse(s: SongData, c: Clock, left: nat): (d: Clock)
    requires Runs(s, c) && OnTime(s, c, left)
    ensures Runs(s, d) && Timely(d)
    decreases left, Soon(c)
  {
    if Due(c, left) then
      SoonDecreases(s, c, left);
      Elapse(s, Rung(s, c), left - c.wait / SAMPLE)
    else c.(wait := c.wait - left * SAMPLE)
  }

  /** The ticks in those samples, each by the number of samples before it;
      `mixed` samples came before the first. */
  ghost function TickTimes(s: SongData, c: Clock, mixed: nat, left: nat): seq<nat>
    requires Runs(s, c) && OnTime(s, c, left)
    decreases left, Soon(c)
  {
    if Due(c, left) then
      SoonDecreases(s, c, left);
      var n := c.wait / SAMPLE;
      [mixed + n] + TickTimes(s, Rung(s, c), mixed + n, left - n)
    else []
  }

  /** None of the ticks in the next `left` samples sets another tempo. */
  ghost predicate Steady(s: SongData, c: Clock, left: nat)
    requires Runs(s, c)
    decreases left, Soon(c)
  {
    Timely(c) &&
    (Due(c, left) ==>
       NewTempo(s, c.pos, c.tempo) == c.tempo &&
       (SoonDecreases(s, c, left);
        Steady(s, Rung(s, c), left - c.wait / SAMPLE)))
  }

  /** What the three functions do when a tick comes, and when none does. */
  lemma StepDue(s: SongData, c: Clock, mixed: nat, left: nat)
    requires Runs(s, c) && Timely(c) && Due(c, left)
    ensures var n, e := c.wait / SAMPLE, Rung(s, c);
            && 0 <= n < left && (n == 0 ==> Soon(e) < Soon(c))
            && (OnTime(s, c, left) <==> OnTime(s, e, left - n))
            && (Steady(s, c, left) <==> NewTempo(s, c.pos, c.tempo) == c.tempo && Steady(s, e, left - n))
            && (OnTime(s, c, left) ==>
                  && Elapse(s, c, left) == Elapse(s, e, left - n)
                  && TickTimes(s, c, mixed, left) == [mixed + n] + TickTimes(s, e, mixed + n, left - n))
  {
    SoonDecreases(s, c, left);
    hide Rung, TickLength, NewTempo, Runs;
  }

  lemma StepIdle(s: SongData, c: Clock, mixed: nat, left: nat)
    requires Runs(s, c) && !Due(c, left)
    ensures OnTime(s, c, left) <==> Timely(c)
    ensures OnTime(s, c, left) ==>
              Elapse(s, c, left) == c.(wait := c.wait - left * SAMPLE) && TickTimes(s, c, mixed, left) == []
  {
    hide Rung, TickLength, NewTempo, Runs;
  }

  /** Mixing n samples before the next tick. */
  lemma WaitOut(s: SongData, c: Clock, mixed: nat, left: nat, n: nat)
    requires Runs(s, c) && n <= left && (c.pos.playing ==> n * SAMPLE <= c.wait)
    ensures var d := c.(wait := c.wait - n * SAMPLE);
            && (OnTime(s, c, left) <==> OnTime(s, d, left - n))
            && (OnTime(s, c, left) ==>
                  && Elapse(s, c, left) == Elapse(s, d, left - n)
                  && TickTimes(s, c, mixed, left) == TickTimes(s, d, mixed + n, left - n))
  {
    var d := c.(wait := c.wait - n * SAMPLE);
    DivModShift(c.wait, -(n as int), SAMPLE);
    assert Rung(s, d) == Rung(s, c) && Runs(s, d);
    hide Rung, OnTime, Elapse, TickTimes, Steady, TickLength, NewTempo, Runs, Soon;
    if Due(c, left) && Timely(c) {
      StepDue(s, c, mixed, left);
      StepDue(s, d, mixed + n, left - n);
    } else if Timely(c) {
      StepIdle(s, c, mixed, left);
      StepIdle(s, d, mixed + n, left - n);
    }
  }

  /** A tick that is due now. */
  lemma TickNow(s: SongData, c: Clock, mixed: nat, left: nat)
    requires Runs(s, c) && OnTime(s, c, left) && c.pos.playing && c.wait < SAMPLE && left > 0
    ensures OnTime(s, Rung(s, c), left)
    ensures Elapse(s, c, left) == Elapse(s, Rung(s, c), left)
    ensures TickTimes(s, c, mixed, left) == [mixed] + TickTimes(s, Rung(s, c), mixed, left)
  {
    StepDue(s, c, mixed, left);
    hide Rung, Elapse, TickTimes, Steady, TickLength, NewTempo, Runs, Soon;
  }

  lemma NotTimely(s: SongData, c: Clock)
    requires Runs(s, c) && !Timely(c)
    ensures forall left: nat :: !OnTime(s, c, left)
  {
  }

  lemma OnTimeTimely(s: SongData, c: Clock, left: nat)
    requires Runs(s, c) && OnTime(s, c, left)
    ensures Timely(c)
  {
  }

  lemma RungSooner(s: SongData, c: Clock)
    requires Runs(s, c) && c.pos.playing && 0 <= c.wait < SAMPLE
    ensures Soon(Rung(s, c)) < Soon(c)
  {
    SoonDecreases(s, c, 1);
  }

  /** Being on time, tick by tick, in terms of the tempos: the next tick must
      change the tempo gently, or end the song, and the rest be on time. */
  lemma OnTimeStep(s: SongData, c: Clock, left: nat)
    requires Runs(s, c) && Timely(c) && Due(c, left)
    ensures Timely(Rung(s, c)) <==>
            (Rung(s, c).pos.playing ==> Gentle(c.tempo, Rung(s, c).tempo, c.wait % SAMPLE))
    ensures OnTime(s, c, left) <==>
            (Rung(s, c).pos.playing ==> Gentle(c.tempo, Rung(s, c).tempo, c.wait % SAMPLE)) &&
            0 <= c.wait / SAMPLE <= left && OnTime(s, Rung(s, c), left - c.wait / SAMPLE)
  {
    RungTempo(s, c);
    TempoTickIff(c.tempo, Rung(s, c).tempo, c.wait % SAMPLE);
    StepDue(s, c, 0, left);
    hide Rung, Elapse, TickTimes, Steady, TickLength, NewTempo, Runs, Soon, Gentle, OnTime;
    if !Timely(Rung(s, c)) { NotTimely(s, Rung(s, c)); }
  }

  lemma RungTempo(s: SongData, c: Clock)
    requires Runs(s, c)
    ensures IsTempo(Rung(s, c).tempo)
    ensures Rung(s, c).wait == AfterTick(c.wait % SAMPLE, c.tempo, Rung(s, c).tempo)
  {
    NewTempoIsTempo(s, c.pos, c.tempo);
  }

  /** Buffers do not matter: a samples and then b samples are a + b samples,
      in the clock and in the ticks. */
  lemma {:induction false} ElapseCompose(s: SongData, c: Clock, mixed: nat, a: nat, b: nat)
    requires Runs(s, c)
    ensures OnTime(s, c, a + b) <==> OnTime(s, c, a) && OnTime(s, Elapse(s, c, a), b)
    ensures OnTime(s, c, a + b) ==>
              && Elapse(s, c, a + b) == Elapse(s, Elapse(s, c, a), b)
              && TickTimes(s, c, mixed, a + b)
              == TickTimes(s, c, mixed, a) + TickTimes(s, Elapse(s, c, a), mixed + a, b)
    decreases a, Soon(c)
  {
    hide Rung, OnTime, Elapse, TickTimes, Steady, TickLength, NewTempo, Runs, Soon;
    if Timely(c) && Due(c, a) {
      StepDue(s, c, mixed, a);
      StepDue(s, c, mixed, a + b);
      var n := c.wait / SAMPLE;
      ElapseCompose(s, Rung(s, c), mixed + n, a - n, b);
      assert a + b - n == a - n + b;
    } else if Timely(c) {
      StepIdle(s, c, mixed, a);
      WaitOut(s, c, mixed, a + b, a);
    } else {
      NotTimely(s, c);
    }
  }

  // ---------------------------------------------------------------------
  // Stretches without a new tempo
  // ---------------------------------------------------------------------

  /** When tick k is due if the tempo stays. */
  function DueAt(c: Clock, k: nat): int
    requires IsTempo(c.tempo)
  {
    (c.wait + k * TickLength(c.tempo)) / SAMPLE
  }

  lemma DueAtStep(s: SongData, c: Clock, k: nat)
    requires Runs(s, c) && NewTempo(s, c.pos, c.tempo) == c.tempo
    ensures DueAt(c, k + 1) == c.wait / SAMPLE + DueAt(Rung(s, c), k)
  {
    RungKeeps(s, c);
    var p := TickLength(c.tempo);
    hide Rung, TickLength;
    assert c.wait == c.wait / SAMPLE * SAMPLE + c.wait % SAMPLE;
    assert (k + 1) * p == k * p + p;
    DivModShift(c.wait % SAMPLE + p + k * p, c.wait / SAMPLE, SAMPLE);
  }

  /** No drift: in a stretch without a new tempo every tick k comes exactly
      floor((wait + k * length) / 4096) samples after its start, and ticks and
      samples balance to the last fraction. */
  lemma {:induction false} NoDrift(s: SongData, c: Clock, mixed: nat, left: nat)
    requires Runs(s, c) && Steady(s, c, left)
    ensures OnTime(s, c, left)
    ensures var ts, d := TickTimes(s, c, mixed, left), Elapse(s, c, left);
            && (forall k | 0 <= k < |ts| :: DueAt(c, k) < left && ts[k] == mixed + DueAt(c, k))
            && d.tempo == c.tempo
            && c.wait + |ts| * TickLength(c.tempo) == left * SAMPLE + d.wait
    decreases left, Soon(c)
  {
    hide Rung, TickLength, OnTime, Elapse, TickTimes, Steady, NewTempo, Inv, WellFormed, Soon, DueAt, Due;
    SteadyTimely(s, c, left);
    if Due(c, left) {
      StepDue(s, c, mixed, left);
      RungKeeps(s, c);
      RungParts(s, c);
      var n := c.wait / SAMPLE;
      NoDrift(s, Rung(s, c), mixed + n, left - n);
      var us := TickTimes(s, Rung(s, c), mixed + n, left - n);
      Shifted(s, c, mixed, left, us);
      Balance(c.wait, |us|, TickLength(c.tempo), left, Elapse(s, c, left).wait);
    } else {
      StepIdle(s, c, mixed, left);
    }
  }

  lemma Balance(wait: int, k: nat, p: nat, left: nat, end: int)
    requires wait % SAMPLE + p + k * p == (left - wait / SAMPLE) * SAMPLE + end
    ensures wait + (k + 1) * p == left * SAMPLE + end
  {
  }

  lemma SteadyTimely(s: SongData, c: Clock, left: nat)
    requires Runs(s, c) && Steady(s, c, left)
    ensures Timely(c)
  {
  }

  lemma Shifted(s: SongData, c: Clock, mixed: nat, left: nat, us: seq<nat>)
    requires Runs(s, c) && Timely(c) && Due(c, left) && NewTempo(s, c.pos, c.tempo) == c.tempo
    requires var n := c.wait / SAMPLE;
             forall k | 0 <= k < |us| :: DueAt(Rung(s, c), k) < left - n && us[k] == mixed + n + DueAt(Rung(s, c), k)
    ensures var ts := [mixed + c.wait / SAMPLE] + us;
            forall k | 0 <= k < |ts| :: DueAt(c, k) < left && ts[k] == mixed + DueAt(c, k)
  {
    hide Rung, TickLength, NewTempo, Inv, WellFormed;
    var ts := [mixed + c.wait / SAMPLE] + us;
    forall k | 0 <= k < |ts| ensures DueAt(c, k) < left && ts[k] == mixed + DueAt(c, k) {
      if k > 0 { DueAtStep(s, c, k - 1); }
    }
  }

  lemma RungParts(s: SongData, c: Clock)
    requires Runs(s, c)
    ensures Inv(s, Tick(s, c.pos))
    ensures Rung(s, c).pos == Tick(s, c.pos) && Rung(s, c).tempo == NewTempo(s, c.pos, c.tempo)
  {
    TickRefines(s, c.pos);
    NewTempoIsTempo(s, c.pos, c.tempo);
  }

  lemma NoTicks(s: SongData, p: Pos)
    requires WellFormed(s) && Inv(s, p)
    ensures Ticks(s, p, 0) == p
  {
  }

  /** The position follows the ticks. */
  lemma {:induction false} ElapsePos(s: SongData, c: Clock, mixed: nat, left: nat)
    requires Runs(s, c) && OnTime(s, c, left)
    ensures Elapse(s, c, left).pos == Ticks(s, c.pos, |TickTimes(s, c, mixed, left)|)
    decreases left, Soon(c)
  {
    hide Tick, NewTempo, OnTime, Elapse, TickTimes, Rung, Inv, WellFormed, Soon, Ticks, Due;
    RungParts(s, c);
    NoTicks(s, c.pos);
    if !Timely(c) { NotTimely(s, c); }
    if Due(c, left) {
      StepDue(s, c, mixed, left);
      var n := c.wait / SAMPLE;
      var e := Rung(s, c);
      ElapsePos(s, e, mixed + n, left - n);
      TicksShift(s, c.pos, |TickTimes(s, e, mixed + n, left - n)|);
    } else {
      StepIdle(s, c, mixed, left);
    }
  }

  lemma {:induction false} TicksShift(s: SongData, p: Pos, k: nat)
    requires WellFormed(s) && Inv(s, p) && Inv(s, Tick(s, p))
    ensures Ticks(s, p, k + 1) == Ticks(s, Tick(s, p), k)
  {
    hide Tick, Inv;
    if k > 0 { TicksShift(s, p, k - 1); }
  }

  /** A stretch is steady if none of the ticks due in it sets another tempo. */
  lemma {:induction false} SteadyIf(s: SongData, c: Clock, left: nat)
    requires Runs(s, c) && Timely(c)
    requires c.pos.playing ==>
               forall j: nat | DueAt(c, j) < left :: NewTempo(s, Ticks(s, c.pos, j), c.tempo) == c.tempo
    ensures Steady(s, c, left)
    decreases left, Soon(c)
  {
    if Due(c, left) {
      assert DueAt(c, 0) == c.wait / SAMPLE;
      assert Ticks(s, c.pos, 0) == c.pos;
      SoonDecreases(s, c, left);
      RungKeeps(s, c);
      var e := Rung(s, c);
      TickRefines(s, c.pos);
      assert e.pos == Tick(s, c.pos) && e.tempo == c.tempo;
      hide Rung, TickLength, Tick, NewTempo;
      forall j: nat | DueAt(e, j) < left - c.wait / SAMPLE
        ensures NewTempo(s, Ticks(s, e.pos, j), e.tempo) == e.tempo
      {
        DueAtStep(s, c, j);
        TicksShift(s, c.pos, j);
      }
      SteadyIf(s, e, left - c.wait / SAMPLE);
    }
  }

  /** It suffices to look at as many ticks as there are samples. */
  lemma SteadyForTicks(s: SongData, c: Clock, left: nat)
    requires Runs(s, c) && Timely(c)
    requires forall j: nat | j < left :: NewTempo(s, Ticks(s, c.pos, j), c.tempo) == c.tempo
    ensures Steady(s, c, left)
  {
    TickLengthBound(c.tempo);
    hide NewTempo, TickLength;
    if c.pos.playing {
      forall j: nat | DueAt(c, j) < left ensures j < left {
        var p := TickLength(c.tempo);
        MulNonNegative(j, p - SAMPLE);
        assert j * (p - SAMPLE) == j * p - j * SAMPLE;
        DivGreatest(c.wait + j * p, SAMPLE, j);
      }
      SteadyIf(s, c, left);
    }
  }

  // ---------------------------------------------------------------------
  // Songs with new tempos
  // ---------------------------------------------------------------------

  /** Every tempo the song sets lies in [a, 2a). */
  ghost predicate TemposWithin(s: SongData, a: nat) {
    forall i, r, c | 0 <= i < |s.patterns| && 0 <= r < |s.patterns[i]| && 0 <= c < CHANNELS ::
      SetsTempo(s.patterns[i][r][c]) ==> a <= s.patterns[i][r][c].param < 2 * a
  }

  /** A song whose tempos stay within a factor of two is always on time. */
  lemma {:induction false} GentleSong(s: SongData, c: Clock, left: nat, a: nat)
    requires Runs(s, c) && Timely(c) && TemposWithin(s, a) && a <= c.tempo < 2 * a
    ensures OnTime(s, c, left)
    decreases left, Soon(c)
  {
    if Due(c, left) {
      SoonDecreases(s, c, left);
      NewTempoIsTempo(s, c.pos, c.tempo);
      NewTempoWithin(s, c.pos, c.tempo, a);
      var n := NewTempo(s, c.pos, c.tempo);
      TempoTickIff(c.tempo, n, c.wait % SAMPLE);
      assert Timely(Rung(s, c)) && Rung(s, c).tempo == n;
      hide Rung, NewTempo, TemposWithin;
      GentleSong(s, Rung(s, c), left - c.wait / SAMPLE, a);
    }
  }

  lemma NewTempoWithin(s: SongData, p: Pos, tempo: nat, a: nat)
    requires WellFormed(s) && Inv(s, p) && TemposWithin(s, a) && a <= tempo < 2 * a
    ensures a <= NewTempo(s, p, tempo) < 2 * a
  {
    UpcomingOnSong(s, p);
    if PlaysRow(p) && Upcoming(s, p).At? {
      TempoAfterIs(tempo, s.patterns[s.order[Upcoming(s, p).order]][Upcoming(s, p).row], CHANNELS);
    }
  }

  // ---------------------------------------------------------------------
  // From play on
  // ---------------------------------------------------------------------

  /** The clock after play: the first tick is due at once. */
  function Origin(s: SongData): (c: Clock)
    requires WellFormed(s)
    ensures Runs(s, c)
  {
    StartedInv(s);
    Clock(Started(s), DEFAULT_TEMPO, 0)
  }

  lemma OriginStarts(s: SongData)
    requires WellFormed(s)
    ensures OnTime(s, Origin(s), 0) && Elapse(s, Origin(s), 0) == Origin(s) && TickTimes(s, Origin(s), 0, 0) == []
  {
    StepIdle(s, Origin(s), 0, 0);
  }

  /** The tempo the first row of a song leaves. */
  function FirstTempo(s: SongData): nat
    requires WellFormed(s) && s.order != []
  {
    TempoAfter(DEFAULT_TEMPO, s.patterns[s.order[0]][0], CHANNELS)
  }

  lemma {:induction false} StartTicks(s: SongData, k: nat)
    requires WellFormed(s) && s.order != [] && k <= 5
    ensures Inv(s, Started(s))
    ensures Ticks(s, Started(s), k) == Started(s).(tick := k)
  {
    StartedInv(s);
    hide RowTick, Seek;
    if k > 0 {
      StartTicks(s, k - 1);
      assert Tick(s, Started(s).(tick := k - 1)) == Started(s).(tick := k) by { StartTick(s, k - 1); }
      hide Tick, Inv, Started;
    } else {
      NoTicks(s, Started(s));
      hide Tick, Inv;
    }
  }

  lemma StartTick(s: SongData, k: nat)
    requires WellFormed(s) && s.order != [] && k < 5
    requires Inv(s, Started(s).(tick := k))
    ensures Tick(s, Started(s).(tick := k)) == Started(s).(tick := k + 1)
  {
    hide RowTick;
  }

  /** After 3153 samples five ticks have come. */
  lemma FiveTicks(s: SongData, c: Clock, n: nat)
    requires WellFormed(s) && s.order != [] && Timely(c)
    requires c.pos == Ticks(s, Started(s), n) && n * 2583429 == 3153 * SAMPLE + c.wait
    requires n > 0 ==> DueAt(Origin(s), n - 1) < 3153
    ensures n == 5 && c.pos == Started(s).(tick := 5) && c.wait == 2457
  {
    hide Tick, Inv, WellFormed, TickLength, OnTime;
    if n > 0 { BeforeFive(s, n - 1); }
    StartTicks(s, n);
  }

  /** Below 250 the tick after the first row is at least a sample away. */
  lemma FarEnough(n: nat)
    requires IsTempo(n) && n < 250
    ensures AfterTick(2457, DEFAULT_TEMPO, n) >= SAMPLE
  {
    assert TickLength(249) == 1296902;
    if n < 249 { TickLengthStrict(n, 249); }
  }

  /** The first five ticks come before the first row. */
  lemma FirstStretch(s: SongData)
    requires WellFormed(s) && s.order != []
    ensures Steady(s, Origin(s), 3153) && OnTime(s, Origin(s), 3153)
    ensures Elapse(s, Origin(s), 3153) == Clock(Started(s).(tick := 5), DEFAULT_TEMPO, 2457)
  {
    var o := Origin(s);
    forall j: nat | DueAt(o, j) < 3153 ensures NewTempo(s, Ticks(s, o.pos, j), o.tempo) == o.tempo {
      BeforeFive(s, j);
      StartTicks(s, j);
    }
    hide NewTempo, OnTime, Elapse, TickTimes, TickLength, Steady, Inv, Ticks;
    SteadyIf(s, o, 3153);
    NoDrift(s, o, 0, 3153);
    ElapsePos(s, o, 0, 3153);
    DefaultLength();
    var n := |TickTimes(s, o, 0, 3153)|;
    assert n > 0 ==> DueAt(o, n - 1) < 3153;
    FiveTicks(s, Elapse(s, o, 3153), n);
  }

  lemma DefaultLength()
    ensures TickLength(DEFAULT_TEMPO) == 2583429
  {
  }

  lemma BeforeFive(s: SongData, j: nat)
    requires WellFormed(s) && DueAt(Origin(s), j) < 3153
    ensures j < 5
  {
    DefaultLength();
    hide TickLength;
    if j >= 5 { DivGreatest(j * 2583429, SAMPLE, 3153); }
  }

  /** The first row of every song is played by tick 5, 3153 samples after play;
      it leaves a negative wait exactly if it more than doubles the tempo of
      125.  So the sixth buffer of such a song is not on time, and the tick of
      the first row is met by every other song. */
  lemma FirstRow(s: SongData)
    requires WellFormed(s) && s.order != []
    ensures OnTime(s, Origin(s), 3153)
    ensures var c := Elapse(s, Origin(s), 3153);
            c == Clock(Started(s).(tick := 5), DEFAULT_TEMPO, 2457) && (Rung(s, c).wait < 0 <==> FirstTempo(s) > 250)
    ensures OnTime(s, Origin(s), 3154) <==> FirstTempo(s) <= 250
  {
    FirstStretch(s);
    var c := Clock(Started(s).(tick := 5), DEFAULT_TEMPO, 2457);
    ElapseCompose(s, Origin(s), 0, 3153, 1);
    FirstRung(s, c);
    DefaultLength();
    TempoTickIff(DEFAULT_TEMPO, FirstTempo(s), 2457);
    hide Elapse, TickTimes, Rung, TickLength, NewTempo, Inv, FirstTempo, Steady;
    StepDue(s, c, 0, 1);
    hide OnTime;
    var e := Rung(s, c);
    if e.wait < 0 {
      NotTimely(s, e);
    } else if e.wait >= SAMPLE {
      StepIdle(s, e, 0, 1);
    } else {
      AtTheLimit(s, e);
    }
  }

  /** A first tempo of exactly 250 brings the next tick on the same sample; that
      one cannot fail, since no tempo is above 255. */
  lemma AtTheLimit(s: SongData, e: Clock)
    requires Runs(s, e) && e.pos.playing && e.wait == AfterTick(2457, DEFAULT_TEMPO, e.tempo)
    requires 0 <= e.wait < SAMPLE
    ensures OnTime(s, e, 1)
  {
    if e.tempo < 250 { FarEnough(e.tempo); }
    DefaultLength();
    assert TickLength(250) == 1291714;
    assert e.tempo >= 250;
    TickLengthBound(e.tempo);
    if e.tempo > 250 { TickLengthStrict(250, e.tempo); }
    RungTempo(s, e);
    TickLengthBound(Rung(s, e).tempo);
    hide Rung, TickLength, OnTime, Elapse, TickTimes, Steady, NewTempo, Inv;
    var f := Rung(s, e);
    assert f.wait >= SAMPLE;
    StepDue(s, e, 0, 1);
    StepIdle(s, f, 0, 1);
  }

  lemma FirstRung(s: SongData, c: Clock)
    requires WellFormed(s) && s.order != [] && c == Clock(Started(s).(tick := 5), DEFAULT_TEMPO, 2457)
    ensures Runs(s, c) && IsTempo(FirstTempo(s)) && Rung(s, c).pos.playing && Rung(s, c).tempo == FirstTempo(s)
    ensures Rung(s, c).wait == AfterTick(2457, DEFAULT_TEMPO, FirstTempo(s))
  {
    StartTicks(s, 5);
    NewTempoIsTempo(s, c.pos, c.tempo);
    ProcessRowRefines(s, Started(s).(curRow := 1), 0, 0);
    assert Rung(s, c).pos == ProcessRow(s, Started(s).(curRow := 1));
    hide TempoAfter, TickLength;
  }

  /** Such songs exist: FFF in the first row. */
  lemma FastSong() returns (s: SongData)
    ensures WellFormed(s) && !OnTime(s, Origin(s), 3154)
  {
    var rest := Cell(0, 0, 0, 0);
    var row: Row := [Cell(0, 0, 0xF, 0xFF), rest, rest, rest];
    s := Song([seq(ROWS, _ => row)], [0]);
    assert FirstTempo(s) == 255 by {
      assert s.patterns[s.order[0]][0] == row;
      assert TempoAfter(DEFAULT_TEMPO, row, 1) == 255;
      assert TempoAfter(DEFAULT_TEMPO, row, 2) == 255;
      assert TempoAfter(DEFAULT_TEMPO, row, 3) == 255;
    }
    FirstRow(s);
  }
}
