/**
 CMODPlayer (apps/modPlayer/modPlayer.cpp) as an object: play, stop, the tick
 update with its row effects, and the fixed-point schedule that decides how
 many samples to mix between two ticks.
 */
module ModPlayer {
  import opened Arithmetic
  import opened Sequencer
  import opened Schedule
  import Channels

  const MIX_BUFFER_SIZE: nat := 528
  const DEFAULT_SPEED: nat := 6

  /** Does this update run the mid-tick effects? */
  predicate MidTick(p: Pos) { p.playing && (p.tick + 1) % 256 < p.speed }

  /** w is r after a mid tick, for some waveforms of tremolo and vibrato. */
  ghost predicate MidTicked(b: Channels.Bank, r: Channels.Result, blocked: bool, w: Channels.Result) {
    exists t, v | -128 <= t <= 127 && -128 <= v <= 127 :: w == Channels.Then(b, r, Channels.Mid(t, v, blocked))
  }

  lemma MidTickedBy(b: Channels.Bank, r: Channels.Result, blocked: bool, t: int, v: int)
    requires -128 <= t <= 127 && -128 <= v <= 127
    ensures MidTicked(b, r, blocked, Channels.Then(b, r, Channels.Mid(t, v, blocked)))
  {
    hide Channels.Then;
  }

  /** The cells of the song name samples of the bank and notes of the table. */
  ghost predicate CellsFit(s: SongData, b: Channels.Bank) {
    forall i, r, c | 0 <= i < |s.patterns| && 0 <= r < |s.patterns[i]| && 0 <= c < CHANNELS ::
      Channels.LegalEvent(b, Channels.Row(s.patterns[i][r][c], false))
  }

  lemma CellLegal(s: SongData, b: Channels.Bank, i: nat, r: nat, c: nat, blocked: bool)
    requires CellsFit(s, b) && i < |s.patterns| && r < |s.patterns[i]| && c < CHANNELS
    ensures Channels.LegalEvent(b, Channels.Row(s.patterns[i][r][c], blocked))
  {
    assert Channels.LegalEvent(b, Channels.Row(s.patterns[i][r][c], false));
  }

  class CMODPlayer {
    const song: SongData
    const bank: Channels.Bank        // the samples and the note table
    var playing: bool
    var tick: nat
    var speed: nat
    var curRow: nat
    var curOrder: nat
    var nextOrder: nat
    var breakRow: nat
    var patDelay: nat
    var ptrPattern: nat              // rowPtr: pattern ...
    var ptrRow: nat                  // ... and row
    const loops: array<Loop>
    const channels: array<Channels.Result>   // SMODChannel with its SSoundChannel
    var channelBlocked: seq<bool>
    var samplesUntilTick: int
    var samplesPerTick: nat
    var tempo: nat
    var mixed: nat                   // samples handed to the mixer since play
    ghost var ticks: seq<nat>        // for each tick since play, `mixed` at that time

    ghost predicate Shape()
      reads `channelBlocked
    {
      WellFormed(song) && Channels.ProperBank(bank) && CellsFit(song, bank) &&
      loops.Length == channels.Length == |channelBlocked| == CHANNELS
    }

    function Position(): Pos
      reads `playing, `tick, `speed, `curRow, `curOrder, `nextOrder, `breakRow, `patDelay, `ptrPattern, `ptrRow, loops
    {
      Pos(playing, tick, speed, curRow, curOrder, nextOrder, breakRow, patDelay, ptrPattern, ptrRow, loops[..])
    }

    /** Channels that did not fail meet what the mixer relies on. */
    ghost predicate ChannelsSound()
      requires Shape()
      reads `channelBlocked, channels
    {
      forall c | 0 <= c < CHANNELS :: Channels.SoundResult(bank, channels[c])
    }

    /** The length of a tick is that of the tempo. */
    ghost predicate Timed()
      reads `samplesPerTick, `tempo
    {
      IsTempo(tempo) && samplesPerTick == TickLength(tempo)
    }

    /** What decides when the next ticks come. */
    function Now(): Clock
      reads `playing, `tick, `speed, `curRow, `curOrder, `nextOrder, `breakRow, `patDelay, `ptrPattern, `ptrRow, loops
      reads `samplesUntilTick, `tempo
    {
      Clock(Position(), tempo, samplesUntilTick)
    }

    /** Every channel took its cell of the row, the tempo is the last one set in
        it, and setting it moved the next tick by the change of length. */
    ghost predicate RowApplied(was: seq<Channels.Result>, until: int, perTick: nat, o: nat, row: Row)
      requires Shape() && |was| == CHANNELS
      reads `channelBlocked, `samplesUntilTick, `samplesPerTick, `tempo, channels
    {
      && (forall c | 0 <= c < CHANNELS ::
            channels[c] == Channels.Then(bank, was[c], Channels.Row(row[c], channelBlocked[c])))
      && tempo == TempoAfter(o, row, CHANNELS)
      && samplesUntilTick - samplesPerTick == until - perTick
    }

    ghost predicate AllSilenced(was: seq<Channels.Result>)
      requires Shape() && |was| == CHANNELS
      reads `channelBlocked, channels
    {
      forall c | 0 <= c < CHANNELS :: channels[c] == Channels.Silenced(was[c])
    }

    /** The upcoming row was applied, or all channels were silenced because the
        song ended. */
    ghost predicate UpcomingApplied(was: seq<Channels.Result>, until: int, perTick: nat, o: nat, next: Place)
      requires Shape() && |was| == CHANNELS && OnSong(song, next)
      reads `channelBlocked, `samplesUntilTick, `samplesPerTick, `tempo, channels
    {
      match next
      case End => AllSilenced(was) && samplesUntilTick == until && tempo == o
      case At(i, r) => RowApplied(was, until, perTick, o, song.patterns[song.order[i]][r])
    }

    /** The state between any two ticks. */
    ghost predicate Sane()
      reads this, loops, channels
    {
      Shape() && Inv(song, Position()) && ChannelsSound() && Timed()
    }

    ghost predicate Valid()
      reads this, loops, channels
    {
      Sane() && Timely(Now())
    }

    /** Everything since play went by the schedule of the song, whatever tempos
        it sets. */
    ghost predicate OnSchedule()
      reads this, loops
    {
      && WellFormed(song) && OnTime(song, Origin(song), mixed)
      && Now() == Elapse(song, Origin(song), mixed)
      && ticks == TickTimes(song, Origin(song), 0, mixed)
    }

    /** play(): everything zero, first row of the first order, default tempo. */
    constructor Play(s: SongData, b: Channels.Bank)
      requires WellFormed(s) && Channels.ProperBank(b) && CellsFit(s, b)
      ensures Valid() && OnSchedule() && fresh(loops) && fresh(channels)
      ensures song == s && bank == b && Position() == Started(s)
      ensures ticks == [] && mixed == 0 && Now() == Origin(s)
    {
      song, bank := s, b;
      playing, tick, speed := true, 0, DEFAULT_SPEED;
      curRow, curOrder, nextOrder, breakRow, patDelay, ptrPattern, ptrRow := 0, 0, 0, 0, 0, 0, 0;
      loops := new Loop[CHANNELS](_ => Loop(0, 0));
      channels := new Channels.Result[CHANNELS](_ => Channels.Fine(Channels.Silent));
      channelBlocked := [false, false, false, false];
      tempo, samplesPerTick := DEFAULT_TEMPO, TickLength(DEFAULT_TEMPO);
      samplesUntilTick := 0;
      mixed := 0;
      ticks := [];
      new;
      assert loops[..] == [Loop(0, 0), Loop(0, 0), Loop(0, 0), Loop(0, 0)];
      hide Channels.ProperBank, CellsFit, WellFormed;
      Channels.SilentSound(bank);
      Start();
    }

    /** The end of play(): the first row of the first order. */
    method Start()
      requires Shape() && ChannelsSound() && Timed() && Position() == Cleared
      requires tempo == DEFAULT_TEMPO && samplesUntilTick == 0 && mixed == 0 && ticks == []
      modifies `playing, `curRow, `curOrder, `nextOrder, `breakRow, `ptrPattern, `ptrRow, channels
      ensures Valid() && OnSchedule() && Now() == Origin(song)
    {
      hide Channels.ProperBank, CellsFit, OnTime, Elapse, TickTimes, TickLength, Channels.SoundResult, AllSilenced, Seek;
      OriginStarts(song);
      var ok := MODSeek(0, 0);
    }

    /** stop(): silences the channels. */
    method Stop()
      requires Shape() && ChannelsSound()
      modifies `playing, channels
      ensures !playing && ChannelsSound() && AllSilenced(old(channels[..]))
    {
      hide Channels.Silenced, Channels.SoundResult;
      for c := 0 to CHANNELS
        invariant ChannelsSound()
        invariant forall d | 0 <= d < c :: channels[d] == Channels.Silenced(old(channels[d]))
        invariant forall d | c <= d < CHANNELS :: channels[d] == old(channels[d])
      {
        Channels.SilencedSound(bank, channels[c]);
        channels[c] := Channels.Silenced(channels[c]);
      }
      playing := false;
    }

    method MODSeek(order: nat, row: nat) returns (ok: bool)
      requires Shape() && ChannelsSound()
      modifies `playing, `curRow, `curOrder, `nextOrder, `breakRow, `ptrPattern, `ptrRow, channels
      ensures Position() == Seek(song, old(Position()), order, row)
      ensures ok == (order < |song.order|) && ChannelsSound()
      ensures if ok then channels[..] == old(channels[..]) else AllSilenced(old(channels[..]))
    {
      curOrder := order;
      if curOrder >= |song.order| {
        Stop();
        return false;
      }
      curRow := row;
      if curRow >= ROWS {
        curRow := 0;
      }
      nextOrder := curOrder + 1;
      breakRow := 0;
      ptrPattern := song.order[curOrder];
      ptrRow := curRow;
      return true;
    }

    /** MODUpdate: one tick. */
    method MODUpdate()
      requires Sane()
      modifies `playing, `tick, `speed, `curRow, `curOrder, `nextOrder, `breakRow, `patDelay, `ptrPattern, `ptrRow
      modifies loops, channels, `samplesUntilTick, `samplesPerTick, `tempo
      ensures Sane()
      ensures Position() == Tick(song, old(Position()))
      ensures OnSong(song, Upcoming(song, old(Position())))
      ensures PlaysRow(old(Position())) ==>
                UpcomingApplied(old(channels[..]), old(samplesUntilTick), old(samplesPerTick), old(tempo), Upcoming(song, old(Position())))
      ensures !PlaysRow(old(Position())) ==> samplesUntilTick == old(samplesUntilTick) && tempo == old(tempo)
      ensures MidTick(old(Position())) ==>
                forall c | 0 <= c < CHANNELS :: MidTicked(bank, old(channels[c]), channelBlocked[c], channels[c])
      ensures !PlaysRow(old(Position())) && !MidTick(old(Position())) ==> channels[..] == old(channels[..])
    {
      hide Channels.SoundResult, Summary, RowStep, RowTick, Inv, MidTicked, UpcomingApplied, TickLength;
      UpcomingOnSong(song, Position());
      TickRefines(song, Position());
      if !playing {
        return;
      }
      tick := (tick + 1) % 256;
      if tick >= speed {
        tick := 0;
        if patDelay == 0 {
          InvIgnoresTick(song, old(Position()), 0);
          NextRow();
        } else {
          patDelay := patDelay - 1;
        }
      } else {
        MODUpdateEffects();
      }
    }

    static lemma InvIgnoresTick(s: SongData, p: Pos, t: nat)
      ensures Inv(s, p) == Inv(s, p.(tick := t))
    {
    }

    /** The row tick: seek if the row is past its end, and process a row. */
    method NextRow()
      requires Sane() && playing
      modifies `playing, `speed, `curRow, `curOrder, `nextOrder, `breakRow, `patDelay, `ptrPattern, `ptrRow
      modifies loops, channels, `samplesUntilTick, `samplesPerTick, `tempo
      ensures Shape() && ChannelsSound() && Timed()
      ensures Position() == RowTick(song, old(Position()))
      ensures OnSong(song, Upcoming(song, old(Position())))
      ensures UpcomingApplied(old(channels[..]), old(samplesUntilTick), old(samplesPerTick), old(tempo), Upcoming(song, old(Position())))
    {
      hide Channels.SoundResult, ProcessRow, RowApplied, TickLength;
      curRow := curRow + 1;
      if curRow - 1 >= ROWS {
        var ok := MODSeek(nextOrder, breakRow);
        if !ok {
          return;
        }
        curRow := curRow + 1;
      }
      MODProcessRow();
    }

    /** MODProcessRow: all channels of the row at rowPtr. */
    method MODProcessRow()
      requires Shape() && ChannelsSound() && Timed()
      requires ptrPattern < |song.patterns| && ptrRow < ROWS
      modifies `speed, `curRow, `nextOrder, `breakRow, `patDelay, `ptrRow
      modifies loops, channels, `samplesUntilTick, `samplesPerTick, `tempo
      ensures Shape() && ChannelsSound() && Timed()
      ensures Position() == ProcessRow(song, old(Position()))
      ensures RowApplied(old(channels[..]), old(samplesUntilTick), old(samplesPerTick), old(tempo),
                         song.patterns[old(ptrPattern)][old(ptrRow)])
    {
      hide RowEffect, Channels.Then, Channels.SoundResult, Channels.ProperBank, Channels.LegalEvent, CellsFit, TickLength;
      ghost var p := Position();
      var row := song.patterns[ptrPattern][ptrRow];
      var c: nat := 0;
      while c < CHANNELS
        invariant c <= CHANNELS && ChannelsSound()
        invariant ptrPattern == p.ptrPattern && ptrRow == p.ptrRow
        invariant Position() == RowEffects(p, row, c)
        invariant Timed() && tempo == TempoAfter(old(tempo), row, c)
        invariant samplesUntilTick - samplesPerTick == old(samplesUntilTick) - old(samplesPerTick)
        invariant forall d | 0 <= d < c ::
                    channels[d] == Channels.Then(bank, old(channels[d]), Channels.Row(row[d], channelBlocked[d]))
        invariant forall d | c <= d < CHANNELS :: channels[d] == old(channels[d])
      {
        var cell := row[c];
        CellLegal(song, bank, p.ptrPattern, p.ptrRow, c, channelBlocked[c]);
        Channels.ThenSound(bank, channels[c], Channels.Row(cell, channelBlocked[c]));
        channels[c] := Channels.Then(bank, channels[c], Channels.Row(cell, channelBlocked[c]));
        RowFx(c, cell);
        c := c + 1;
      }
      ptrRow := ptrRow + 1;
    }

    /** The switch over the row effects, as far as it sequences. */
    method RowFx(c: nat, cell: Cell)
      requires loops.Length == CHANNELS && c < CHANNELS && cell.param < 256 && Timed()
      modifies `speed, `curRow, `nextOrder, `breakRow, `patDelay, loops, `samplesUntilTick, `samplesPerTick, `tempo
      ensures Position() == RowEffect(old(Position()), c, cell)
      ensures Timed() && tempo == if SetsTempo(cell) then cell.param else old(tempo)
      ensures samplesUntilTick - samplesPerTick == old(samplesUntilTick) - old(samplesPerTick)
    {
      match cell.effect {
        case 0xB =>
          nextOrder := cell.param;
          curRow := ROWS;
        case 0xD =>
          breakRow := cell.param;
          curRow := ROWS;
        case 0xE => SpecialRow(c, cell);
        case 0xF =>
          if cell.param < 32 { speed := cell.param; } else { MODSetTempo(cell.param); }
        case _ =>
      }
    }

    /** fxSpecialRow: pattern loop and pattern delay. */
    method SpecialRow(c: nat, cell: Cell)
      requires loops.Length == CHANNELS && c < CHANNELS && cell.effect == 0xE
      modifies `curRow, `nextOrder, `breakRow, `patDelay, loops
      ensures Position() == RowEffect(old(Position()), c, cell)
    {
      var param := cell.param % 16;
      match cell.param / 16 {
        case 0x6 =>
          if param == 0 {
            loops[c] := loops[c].(pos := curRow);
          } else {
            if loops[c].count == 0 {
              loops[c] := loops[c].(count := param + 1);
            }
            loops[c] := loops[c].(count := loops[c].count - 1);
            if loops[c].count != 0 {
              breakRow := loops[c].pos;
              nextOrder := curOrder;
              curRow := ROWS;
            }
          }
        case 0xE => patDelay := param;
        case _ =>
      }
    }

    /** MODSetTempo. */
    method MODSetTempo(newTempo: nat)
      requires newTempo > 0
      modifies `samplesUntilTick, `samplesPerTick, `tempo
      ensures tempo == newTempo && samplesPerTick == TickLength(newTempo)
      ensures samplesUntilTick == old(samplesUntilTick) - old(samplesPerTick) + TickLength(newTempo)
    {
      tempo := newTempo;
      samplesUntilTick := samplesUntilTick - samplesPerTick;
      samplesPerTick := TickLength(newTempo);
      samplesUntilTick := samplesUntilTick + samplesPerTick;
    }

    /** MODUpdateEffects: the mid-tick effects, with any waveforms. */
    method MODUpdateEffects()
      requires Shape() && ChannelsSound()
      modifies channels
      ensures ChannelsSound()
      ensures forall c | 0 <= c < CHANNELS :: MidTicked(bank, old(channels[c]), channelBlocked[c], channels[c])
    {
      hide Channels.Then, Channels.SoundResult, Channels.ProperBank, CellsFit, MidTicked;
      var c: nat := 0;
      while c < CHANNELS
        invariant c <= CHANNELS && ChannelsSound()
        invariant forall d | 0 <= d < c :: MidTicked(bank, old(channels[d]), channelBlocked[d], channels[d])
        invariant forall d | c <= d < CHANNELS :: channels[d] == old(channels[d])
      {
        var t: int :| -128 <= t <= 127;
        var v: int :| -128 <= v <= 127;
        Channels.ThenSound(bank, channels[c], Channels.Mid(t, v, channelBlocked[c]));
        MidTickedBy(bank, channels[c], channelBlocked[c], t, v);
        channels[c] := Channels.Then(bank, channels[c], Channels.Mid(t, v, channelBlocked[c]));
        c := c + 1;
      }
    }

    /** update(): one mix buffer, in pieces that end where the song ticks.
        Terminates and mixes exactly MIX_BUFFER_SIZE samples, with every tick
        where the schedule has it, for every song and tempo, unless a tick in
        this buffer leaves a negative wait. */
    method Update()
      requires Valid() && OnTime(song, Now(), MIX_BUFFER_SIZE)
      modifies this, loops, channels
      ensures Valid() && mixed == old(mixed) + MIX_BUFFER_SIZE
      ensures Now() == Elapse(song, old(Now()), MIX_BUFFER_SIZE)
      ensures ticks == old(ticks) + TickTimes(song, old(Now()), old(mixed), MIX_BUFFER_SIZE)
      ensures old(OnSchedule()) ==> OnSchedule()
    {
      hide Valid, OnTime, Elapse, TickTimes, Inv, WellFormed, Soon, Origin;
      ValidRuns();
      ghost var now, before := Now(), mixed;
      ghost var times := TickTimes(song, now, mixed, MIX_BUFFER_SIZE);
      var samplesLeft: nat := MIX_BUFFER_SIZE;
      while samplesLeft > 0
        invariant Valid() && mixed + samplesLeft == before + MIX_BUFFER_SIZE
        invariant Runs(song, Now()) && OnTime(song, Now(), samplesLeft)
        invariant Elapse(song, Now(), samplesLeft) == Elapse(song, now, MIX_BUFFER_SIZE)
        invariant ticks + TickTimes(song, Now(), mixed, samplesLeft) == old(ticks) + times
        decreases samplesLeft, if playing then Soon(Now()) else 0
      {
        samplesLeft := Piece(samplesLeft);
        ValidRuns();
      }
      assert Now() == Elapse(song, now, MIX_BUFFER_SIZE) && TickTimes(song, Now(), mixed, 0) == [] by {
        ValidRuns();
        StepIdle(song, Now(), mixed, 0);
      }
      if old(OnSchedule()) { Onwards(now, before, old(ticks)); }
    }

    lemma Onwards(now: Clock, before: nat, was: seq<nat>)
      requires WellFormed(song) && Runs(song, now) && OnTime(song, now, MIX_BUFFER_SIZE)
      requires OnTime(song, Origin(song), before) && now == Elapse(song, Origin(song), before)
      requires was == TickTimes(song, Origin(song), 0, before)
      requires mixed == before + MIX_BUFFER_SIZE && Now() == Elapse(song, now, MIX_BUFFER_SIZE)
      requires ticks == was + TickTimes(song, now, before, MIX_BUFFER_SIZE)
      ensures OnSchedule()
    {
      ElapseCompose(song, Origin(song), 0, before, MIX_BUFFER_SIZE);
      hide OnTime, Elapse, TickTimes;
    }

    lemma ValidRuns()
      requires Valid()
      ensures Runs(song, Now()) && Timely(Now())
    {
    }

    /** One turn of the loop: a tick if it is due, and the samples up to the
        next. */
    method Piece(samplesLeft: nat) returns (left: nat)
      requires Valid() && OnTime(song, Now(), samplesLeft) && samplesLeft > 0
      modifies this, loops, channels
      ensures Valid() && OnTime(song, Now(), left) && mixed + left == old(mixed) + samplesLeft
      ensures Elapse(song, Now(), left) == Elapse(song, old(Now()), samplesLeft)
      ensures ticks + TickTimes(song, Now(), mixed, left) == old(ticks) + TickTimes(song, old(Now()), old(mixed), samplesLeft)
      ensures left < samplesLeft || (left == samplesLeft && playing && old(playing) && Soon(Now()) < Soon(old(Now())))
    {
      hide Valid, OnTime, Elapse, TickTimes, Rung, Inv, WellFormed, Soon;
      if samplesUntilTick < SAMPLE && playing {
        TickIfDue(samplesLeft);
      }
      ValidRuns();
      ghost var c, m := Now(), mixed;
      left := MixPiece(samplesLeft);
      WaitOut(song, c, m, samplesLeft, samplesLeft - left);
    }

    method TickIfDue(ghost left: nat)
      requires Valid() && OnTime(song, Now(), left) && left > 0 && samplesUntilTick < SAMPLE && playing
      modifies this, loops, channels
      ensures Valid() && OnTime(song, Now(), left) && mixed == old(mixed)
      ensures Elapse(song, Now(), left) == Elapse(song, old(Now()), left)
      ensures ticks + TickTimes(song, Now(), mixed, left) == old(ticks) + TickTimes(song, old(Now()), old(mixed), left)
      ensures Soon(Now()) < Soon(old(Now()))
    {
      hide Sane, OnTime, Elapse, TickTimes, Rung, Inv, WellFormed, Soon;
      ValidRuns();
      TickNow(song, Now(), mixed, left);
      RungSooner(song, Now());
      SongTick();
      OnTimeTimely(song, Now(), left);
    }

    /** Updates the song and sets the number of samples to the next tick. */
    method SongTick()
      requires Valid() && samplesUntilTick < SAMPLE && playing
      modifies this, loops, channels
      ensures Sane() && Now() == Rung(song, old(Now()))
      ensures mixed == old(mixed) && ticks == old(ticks) + [mixed]
    {
      hide Inv, ChannelsSound, Tick, MidTicked, MidTick, TickLength, TempoAfter;
      ticks := ticks + [mixed];
      MODUpdate();
      samplesUntilTick := samplesUntilTick + samplesPerTick;
    }

    /** Mixes up to the next tick, or what is left of the buffer. */
    method MixPiece(samplesLeft: nat) returns (left: nat)
      requires Valid() && samplesLeft > 0
      modifies `mixed, `samplesUntilTick, channels
      ensures Valid() && left <= samplesLeft && mixed + left == old(mixed) + samplesLeft
      ensures AllMixed(old(channels[..]), samplesLeft - left)
      ensures Now() == old(Now()).(wait := old(samplesUntilTick) - (samplesLeft - left) * SAMPLE)
      ensures left == if Due(old(Now()), samplesLeft) then samplesLeft - old(samplesUntilTick) / SAMPLE else 0
    {
      hide Inv, ChannelsSound, TickLength;
      if samplesUntilTick / SAMPLE < samplesLeft && playing {
        var n := samplesUntilTick / SAMPLE;
        Mix(n);
        left := samplesLeft - n;
        samplesUntilTick := samplesUntilTick - n * SAMPLE;
      } else {
        Mix(samplesLeft);
        samplesUntilTick := samplesUntilTick - samplesLeft * SAMPLE;
        left := 0;
      }
    }

    /** Every channel advanced by n samples. */
    ghost predicate AllMixed(was: seq<Channels.Result>, n: nat)
      requires Shape() && |was| == CHANNELS
      reads `channelBlocked, channels
    {
      forall c | 0 <= c < CHANNELS :: channels[c] == Channels.Then(bank, was[c], Channels.Mix(n))
    }

    /** mixer_.mix(n), as far as channels and schedule see it. */
    method Mix(n: nat)
      requires Shape() && ChannelsSound()
      modifies `mixed, channels
      ensures mixed == old(mixed) + n && ChannelsSound() && AllMixed(old(channels[..]), n)
    {
      hide Channels.Then, Channels.SoundResult, Channels.ProperBank, CellsFit;
      for c := 0 to CHANNELS
        invariant ChannelsSound() && mixed == old(mixed)
        invariant forall d | 0 <= d < c :: channels[d] == Channels.Then(bank, old(channels[d]), Channels.Mix(n))
        invariant forall d | c <= d < CHANNELS :: channels[d] == old(channels[d])
      {
        Channels.ThenSound(bank, channels[c], Channels.Mix(n));
        channels[c] := Channels.Then(bank, channels[c], Channels.Mix(n));
      }
      mixed := mixed + n;
    }
  }

  /** A run that goes wrong: five buffers of a song whose first row more than
      doubles the tempo are mixed as they should be, and in the sixth the tick of
      that row leaves a negative number of samples to mix. */
  method FiveBuffers(s: SongData, b: Channels.Bank) returns (p: CMODPlayer)
    requires WellFormed(s) && Channels.ProperBank(b) && CellsFit(s, b) && s.order != [] && FirstTempo(s) > 250
    ensures p.Valid() && p.song == s && p.mixed == 5 * MIX_BUFFER_SIZE
    ensures !OnTime(s, p.Now(), MIX_BUFFER_SIZE)
  {
    FirstRow(s);
    hide OnTime, Elapse, TickTimes, WellFormed, Origin, FirstTempo, Started, Inv, Rung;
    p := new CMODPlayer.Play(s, b);
    var i: nat := 0;
    while i < 5
      invariant i <= 5 && p.Valid() && p.OnSchedule() && p.song == s && p.mixed == i * MIX_BUFFER_SIZE
      invariant fresh(p) && fresh(p.loops) && fresh(p.channels)
    {
      OnTimePrefix(s, p.mixed + MIX_BUFFER_SIZE, 3153);
      ElapseCompose(s, Origin(s), 0, p.mixed, MIX_BUFFER_SIZE);
      p.Update();
      i := i + 1;
    }
    if OnTime(s, p.Now(), MIX_BUFFER_SIZE) {
      ElapseCompose(s, Origin(s), 0, p.mixed, MIX_BUFFER_SIZE);
      OnTimePrefix(s, 3154, p.mixed + MIX_BUFFER_SIZE);
      assert false;
    }
  }

  lemma OnTimePrefix(s: SongData, a: nat, b: nat)
    requires WellFormed(s) && a <= b && OnTime(s, Origin(s), b)
    ensures OnTime(s, Origin(s), a)
  {
    ElapseCompose(s, Origin(s), 0, a, b - a);
  }
}
