/**
 The sample stream of the MOD player: the channels of the mixer beside the clock
 of the schedule.  What a tick does to the channels is left open; the stream
 does not depend on where the buffers begin and end.
 */
module Stream {
  import opened Arithmetic
  import opened Sequencer
  import opened Schedule
  import opened Mixer

  /** What a tick at some position does to the channels. */
  type Action = (Pos, seq<Chan>) -> seq<Chan>

  datatype Heard = Heard(samples: seq<int>, channels: seq<Chan>)

  /** The next `left` samples: the mixer up to a tick, the tick, and so on. */
  ghost function Hear(s: SongData, act: Action, c: Clock, cs: seq<Chan>, left: nat): (h: Heard)
    requires Runs(s, c) && OnTime(s, c, left)
    ensures |h.samples| == left
    decreases left, Soon(c)
  {
    if Due(c, left) then
      SoonDecreases(s, c, left);
      var n := c.wait / SAMPLE;
      var h := Hear(s, act, Rung(s, c), act(c.pos, AfterAll(cs, n)), left - n);
      Heard(MixOut(cs, n) + h.samples, h.channels)
    else Heard(MixOut(cs, left), AfterAll(cs, left))
  }

  lemma HearDue(s: SongData, act: Action, c: Clock, cs: seq<Chan>, left: nat)
    requires Runs(s, c) && OnTime(s, c, left) && Due(c, left)
    ensures var n := c.wait / SAMPLE;
            && 0 <= n < left && (n == 0 ==> Soon(Rung(s, c)) < Soon(c)) && OnTime(s, Rung(s, c), left - n)
            && var h := Hear(s, act, Rung(s, c), act(c.pos, AfterAll(cs, n)), left - n);
               Hear(s, act, c, cs, left) == Heard(MixOut(cs, n) + h.samples, h.channels)
  {
    OnTimeTimely(s, c, left);
    SoonDecreases(s, c, left);
    hide Rung, AfterAll, MixOut, TickLength;
  }

  lemma HearIdle(s: SongData, act: Action, c: Clock, cs: seq<Chan>, left: nat)
    requires Runs(s, c) && OnTime(s, c, left) && !Due(c, left)
    ensures Hear(s, act, c, cs, left) == Heard(MixOut(cs, left), AfterAll(cs, left))
  {
    hide Rung, AfterAll, MixOut, OnTime;
  }

  /** Mixing n samples ahead of the next tick. */
  lemma HearAhead(s: SongData, act: Action, c: Clock, cs: seq<Chan>, left: nat, n: nat)
    requires Runs(s, c) && n <= left && (c.pos.playing ==> n * SAMPLE <= c.wait) && OnTime(s, c, left)
    ensures var d := c.(wait := c.wait - n * SAMPLE);
            OnTime(s, d, left - n) &&
            var h := Hear(s, act, d, AfterAll(cs, n), left - n);
            Hear(s, act, c, cs, left) == Heard(MixOut(cs, n) + h.samples, h.channels)
  {
    hide Rung, OnTime, TickLength, NewTempo, Inv, WellFormed, Soon, Hear, MixOut, AfterAll, Elapse, TickTimes;
    WaitOut(s, c, 0, left, n);
    if Due(c, left) {
      AheadDue(s, act, c, cs, left, n);
    } else {
      HearIdle(s, act, c, cs, left);
      HearIdle(s, act, c.(wait := c.wait - n * SAMPLE), AfterAll(cs, n), left - n);
      MixChunksCompose(cs, n, left - n);
      assert n + (left - n) == left;
    }
  }

  lemma SameRung(s: SongData, c: Clock, n: nat)
    requires Runs(s, c)
    ensures Runs(s, c.(wait := c.wait - n * SAMPLE))
    ensures Rung(s, c.(wait := c.wait - n * SAMPLE)) == Rung(s, c)
  {
    DivModShift(c.wait, -(n as int), SAMPLE);
  }

  lemma AheadDue(s: SongData, act: Action, c: Clock, cs: seq<Chan>, left: nat, n: nat)
    requires Runs(s, c) && n <= left && n * SAMPLE <= c.wait && OnTime(s, c, left) && Due(c, left)
    requires OnTime(s, c.(wait := c.wait - n * SAMPLE), left - n)
    ensures var h := Hear(s, act, c.(wait := c.wait - n * SAMPLE), AfterAll(cs, n), left - n);
            Hear(s, act, c, cs, left) == Heard(MixOut(cs, n) + h.samples, h.channels)
  {
    hide Rung, OnTime, TickLength, NewTempo, Inv, WellFormed, Soon, Hear, MixOut, AfterAll;
    var d := c.(wait := c.wait - n * SAMPLE);
    var m := c.wait / SAMPLE;
    SameRung(s, c, n);
    HearDue(s, act, c, cs, left);
    HearDue(s, act, d, AfterAll(cs, n), left - n);
    assert d.wait / SAMPLE == m - n;
    MixChunksCompose(cs, n, m - n);
    assert n + (m - n) == m && left - n - (m - n) == left - m;
    Regroup(MixOut(cs, n), MixOut(AfterAll(cs, n), m - n),
            Hear(s, act, Rung(s, c), act(c.pos, AfterAll(cs, m)), left - m).samples);
  }

  lemma Regroup(x: seq<int>, y: seq<int>, z: seq<int>)
    ensures (x + y) + z == x + (y + z)
  {
  }

  /** The stream and the channels after a and then b samples are those after
      a + b samples, for every song and whatever the ticks do. */
  lemma {:induction false} HearCompose(s: SongData, act: Action, c: Clock, cs: seq<Chan>, a: nat, b: nat)
    requires Runs(s, c) && OnTime(s, c, a + b)
    ensures OnTime(s, c, a) && OnTime(s, Elapse(s, c, a), b)
    ensures var first := Hear(s, act, c, cs, a);
            var second := Hear(s, act, Elapse(s, c, a), first.channels, b);
            Hear(s, act, c, cs, a + b) == Heard(first.samples + second.samples, second.channels)
    decreases a, Soon(c)
  {
    hide Rung, OnTime, Elapse, TickTimes, TickLength, NewTempo, Inv, WellFormed, Soon, Hear, MixOut, AfterAll;
    ElapseCompose(s, c, 0, a, b);
    OnTimeTimely(s, c, a);
    if Due(c, a) {
      HearDue(s, act, c, cs, a);
      HearDue(s, act, c, cs, a + b);
      StepDue(s, c, 0, a);
      var n := c.wait / SAMPLE;
      assert a + b - n == a - n + b;
      var ds := act(c.pos, AfterAll(cs, n));
      HearCompose(s, act, Rung(s, c), ds, a - n, b);
      var first := Hear(s, act, Rung(s, c), ds, a - n);
      Regroup(MixOut(cs, n), first.samples, Hear(s, act, Elapse(s, c, a), first.channels, b).samples);
    } else {
      HearIdle(s, act, c, cs, a);
      StepIdle(s, c, 0, a);
      HearAhead(s, act, c, cs, a + b, a);
    }
  }

  /** n buffers of any sizes, one after the other. */
  ghost function Buffers(s: SongData, act: Action, c: Clock, cs: seq<Chan>, sizes: seq<nat>): Heard
    requires Runs(s, c) && OnTime(s, c, Total(sizes))
    decreases |sizes|
  {
    if sizes == [] then Heard([], cs)
    else
      HearCompose(s, act, c, cs, sizes[0], Total(sizes[1..]));
      var h := Hear(s, act, c, cs, sizes[0]);
      var rest := Buffers(s, act, Elapse(s, c, sizes[0]), h.channels, sizes[1..]);
      Heard(h.samples + rest.samples, rest.channels)
  }

  function Total(sizes: seq<nat>): nat { if sizes == [] then 0 else sizes[0] + Total(sizes[1..]) }

  lemma {:induction false} BuffersDoNotMatter(s: SongData, act: Action, c: Clock, cs: seq<Chan>, sizes: seq<nat>)
    requires Runs(s, c) && OnTime(s, c, Total(sizes))
    ensures Buffers(s, act, c, cs, sizes) == Hear(s, act, c, cs, Total(sizes))
    decreases |sizes|
  {
    hide Rung, OnTime, Elapse, TickLength, NewTempo, Runs, Soon, Hear;
    if sizes == [] {
      OnTimeTimely(s, c, 0);
      HearIdle(s, act, c, cs, 0);
      NothingMixed(cs);
    } else {
      HearCompose(s, act, c, cs, sizes[0], Total(sizes[1..]));
      var h := Hear(s, act, c, cs, sizes[0]);
      BuffersDoNotMatter(s, act, Elapse(s, c, sizes[0]), h.channels, sizes[1..]);
    }
  }

  lemma NothingMixed(cs: seq<Chan>)
    ensures AfterAll(cs, 0) == cs && MixOut(cs, 0) == []
  {
  }
}
