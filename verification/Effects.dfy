/**
 What the effects of the MOD player do to a channel, effect by effect, in plain
 numbers: rows and mid-ticks of apps/modPlayer/modPlayer.cpp on pitch, volume,
 note and frequency.  Volumes are 0 to 64, periods 53 to 1814; a smaller period
 is a higher pitch.
 */
module Effects {
  import opened Common
  import opened Arithmetic
  import opened Sequencer
  import opened Channels
  import Mixer
  import Volume

  function Between(lo: int, hi: int, x: int): int { Max(lo, Min(hi, x)) }

  /** A step that does not fail, from a sound state. */
  ghost predicate Steps(b: Bank, s: State, e: Event, t: State) {
    ProperBank(b) && Sound(b, s) && LegalEvent(b, e) && Step(b, s, e) == Fine(t)
  }

  /** Effect Exy. */
  predicate Special(effect: nat, param: nat, x: nat) { effect == 0xE && param / 16 == x }

  /** The frequency is that of the period with the vibrato slide, halved
      towards minus infinity. */
  ghost predicate TunedTo(c: Mixer.Chan, period: nat, vibrato: int) {
    var p := if vibrato == 0 then period else Between(53, 1814, period + vibrato / 2);
    p > 0 && c.inc == 464920 / p
  }

  /** The channel starts sample h, 256 * offset samples from its beginning. */
  predicate Starts(c: Mixer.Chan, h: Header, offset: nat) {
    && c.data == Some(h.data) && c.pos == 256 * offset * 4096
    && c.length == 2 * 4096 * (if h.loopLength == 0 then h.length else h.loopStart + h.loopLength)
    && c.loopLength == 2 * 4096 * h.loopLength
  }

  /** Nothing about the sample changed. */
  predicate GoesOn(c: Mixer.Chan, d: Mixer.Chan) {
    c.data == d.data && c.pos == d.pos && c.length == d.length && c.loopLength == d.loopLength
  }

  // ---------------------------------------------------------------------
  // Carrying out a request
  // ---------------------------------------------------------------------

  lemma Handled(b: Bank, s: State, rq: Request, t: State)
    requires ProperBank(b) && Sound(b, s) && Handle(b, s, rq) == Fine(t)
    ensures t.voice == s.voice && t.chan.vol == s.chan.vol
    ensures t.pitch == s.pitch.(period := t.pitch.period)
    ensures var p := if rq.play then b.table(s.pitch.finetune, s.pitch.note) else s.pitch.period;
            t.pitch.period == if rq.fineSlide == 0 then p else Between(53, 1814, p + rq.fineSlide)
    ensures if rq.play then Starts(t.chan, b.headers[s.voice.sample], rq.offset) else GoesOn(s.chan, t.chan)
    ensures if rq.play || rq.setFreq || rq.fineSlide != 0 then TunedTo(t.chan, t.pitch.period, t.pitch.vibrato)
            else t.chan.inc == s.chan.inc
  {
    DivisorZeroIff(t.pitch);
    hide Volume.Legal, Mixer.Playable, ProperBank;
  }

  // ---------------------------------------------------------------------
  // Mid-ticks
  // ---------------------------------------------------------------------

  /** 1xx slides the period down by the portamento speed, 2xx up; 3xx and 5xy
      bring it nearer to the target note by the tone portamento speed and never
      past it; 0xy takes the periods of note + x, note + y and the note in turn;
      nothing else changes it, but a retriggered or delayed note. */
  lemma MidPeriod(b: Bank, s: State, tremolo: int, vibrato: int, blocked: bool, t: State)
    requires Steps(b, s, Mid(tremolo, vibrato, blocked), t) && s.pitch.period >= 53
    requires !Special(s.voice.effect, s.voice.param, 0x9) && !Special(s.voice.effect, s.voice.param, 0xD)
    ensures var p, q := s.pitch, t.pitch.period;
            match s.voice.effect
            case 0x0 =>
              if s.voice.param == 0 then q == p.period
              else
                var up := if t.voice.counter == 1 then s.voice.param / 16 else if t.voice.counter == 2 then s.voice.param % 16 else 0;
                q == b.table(p.finetune, Min(59, p.note + up))
            case 0x1 => q == Max(53, p.period - p.portaSpeed)
            case 0x2 => q == Min(1814, p.period + p.portaSpeed)
            case 0x3 => Nearer(p.period, q, b.table(p.finetune, p.toneNote), p.toneSpeed)
            case 0x5 => Nearer(p.period, q, b.table(p.finetune, p.toneNote), p.toneSpeed)
            case _ => q == p.period
  {
    MidParts(b, s, tremolo, vibrato, blocked, t);
    hide Volume.Legal, Mixer.Playable, Handle;
  }

  /** The distance to the target shrinks by the speed and stops at 0, on the side
      it was. */
  predicate Nearer(p: int, q: int, target: int, speed: nat) {
    if p <= target then q <= target && target - q == Max(0, target - p - speed)
    else q >= target && q - target == Max(0, p - target - speed)
  }

  /** The same before any note was played, when the period is 0. */
  lemma MidPeriodFirst(b: Bank, s: State, tremolo: int, vibrato: int, blocked: bool, t: State)
    requires Steps(b, s, Mid(tremolo, vibrato, blocked), t) && s.pitch.period == 0
    ensures var p, q := s.pitch, t.pitch.period;
            && (s.voice.effect == 0x1 ==> q == 53)
            && (s.voice.effect == 0x2 ==> q == Between(53, 1814, p.portaSpeed))
            && (s.voice.effect == 0x3 || s.voice.effect == 0x5 ==>
                  q == Min(b.table(p.finetune, p.toneNote), Between(53, 1814, p.toneSpeed)))
  {
    MidParts(b, s, tremolo, vibrato, blocked, t);
    hide Volume.Legal, Mixer.Playable, Handle;
  }

  /** How a mid-tick is put together. */
  lemma MidParts(b: Bank, s: State, tremolo: int, vibrato: int, blocked: bool, t: State)
    requires Steps(b, s, Mid(tremolo, vibrato, blocked), t)
    ensures var v := Volume.MidVoice(s.voice, tremolo, blocked);
            var (q, rq) := MidPitch(b, s.pitch, s.voice, vibrato);
            && t.voice == v && v.sample == s.voice.sample
            && t.pitch == q.(period := t.pitch.period)
            && t.chan.vol == v.mixVol
            && (blocked || !rq.play ==> t.pitch.period == q.period && GoesOn(s.chan, t.chan))
            && (!blocked && rq.play ==>
                  t.pitch.period == b.table(q.finetune, q.note) && Starts(t.chan, b.headers[s.voice.sample], 0))
            && (if !blocked && (rq.play || rq.setFreq) then TunedTo(t.chan, t.pitch.period, t.pitch.vibrato)
                else t.chan.inc == s.chan.inc)
  {
    hide Volume.MidVoice, Volume.Legal, Mixer.Playable, MidPitch, Handle, ProperBank, TunedTo, Starts, CountsOut;
    Volume.MidKeepsLegal(s.voice, tremolo, blocked);
    MidVoiceSample(s.voice, tremolo, blocked);
    var v := Volume.MidVoice(s.voice, tremolo, blocked);
    VolumeKeepsPlayable(s, v);
    MidPitchTuned(b, s, vibrato);
    var (q, rq) := MidPitch(b, s.pitch, s.voice, vibrato);
    if !blocked { Handled(b, State(v, q, s.chan.(vol := v.mixVol)), rq, t); }
  }

  /** 5xy, 6xy and Axy slide the volume and 7xy lets the waveform act on it; ECx
      cuts it when its counter runs out.  What the mixer gets includes the
      tremolo. */
  lemma MidVolume(b: Bank, s: State, tremolo: int, vibrato: int, blocked: bool, t: State)
    requires Steps(b, s, Mid(tremolo, vibrato, blocked), t)
    ensures var v, w := s.voice, t.voice;
            var slides := v.effect == 0x5 || v.effect == 0x6 || v.effect == 0xA;
            var cut := Special(v.effect, v.param, 0xC) && v.counter == 1;
            var delayed := Special(v.effect, v.param, 0xD) && v.counter == 1;
            && w.vol == (if slides then Between(0, 64, v.vol + v.slideSpeed) else if cut then 0 else v.vol)
            && w.tremolo == (if v.effect == 0x7 then tremolo else v.tremolo)
            && t.chan.vol == (if !blocked && (slides || cut || delayed || v.effect == 0x7)
                              then Between(0, 64, w.vol + w.tremolo) else s.chan.vol)
            && (if cut || delayed then w.effect == 0 && w.param == 0 else w.effect == v.effect && w.param == v.param)
            && w.slideSpeed == v.slideSpeed
  {
    hide MidPitch, Handle, Mixer.Playable, Step, ProperBank, TunedTo, Starts, Volume.MidVoice, Special, Between;
    MidParts(b, s, tremolo, vibrato, blocked, t);
    VoiceSlides(s.voice, tremolo, blocked);
  }

  lemma VoiceSlides(v: Volume.Voice, tremolo: int, blocked: bool)
    requires Volume.Legal(v) && -128 <= tremolo <= 127
    ensures var w := Volume.MidVoice(v, tremolo, blocked);
            var slides := v.effect == 0x5 || v.effect == 0x6 || v.effect == 0xA;
            var cut := Special(v.effect, v.param, 0xC) && v.counter == 1;
            var delayed := Special(v.effect, v.param, 0xD) && v.counter == 1;
            && w.vol == (if slides then Between(0, 64, v.vol + v.slideSpeed) else if cut then 0 else v.vol)
            && w.tremolo == (if v.effect == 0x7 then tremolo else v.tremolo)
            && w.mixVol == (if !blocked && (slides || cut || delayed || v.effect == 0x7)
                            then Between(0, 64, w.vol + w.tremolo) else v.mixVol)
            && (if cut || delayed then w.effect == 0 && w.param == 0 else w.effect == v.effect && w.param == v.param)
            && w.slideSpeed == v.slideSpeed
  {
    var w := Volume.MidVoice(v, tremolo, blocked);
    Slides(v.vol, v.slideSpeed);
    hide Volume.VolumeSlide;
    assert w.vol <= 64;
    Slides(w.vol, w.tremolo);
  }

  lemma Slides(volume: nat, slide: int)
    requires volume <= 64 && -128 <= slide <= 127
    ensures Volume.VolumeSlide(volume, slide) == Between(0, 64, volume + slide)
  {
    Volume.VolumeSlideClamps(volume, slide);
  }

  /** The counter: 0xy counts 0, 1, 2 in turn; E9x, ECx and EDx count down in
      eight bits. */
  lemma MidCounter(b: Bank, s: State, tremolo: int, vibrato: int, blocked: bool, t: State)
    requires Steps(b, s, Mid(tremolo, vibrato, blocked), t)
    ensures var v, w := s.voice, t.voice;
            w.counter ==
            if v.effect == 0x0 && v.param != 0 then (if v.counter < 2 then v.counter + 1 else 0)
            else if v.effect == 0xE && v.param / 16 in {0x9, 0xC, 0xD} then (v.counter + 255) % 256
            else v.counter
  {
    MidParts(b, s, tremolo, vibrato, blocked, t);
    hide MidPitch, Handle, Mixer.Playable, Step, ProperBank, TunedTo, Starts, Volume.VolumeSlide;
  }

  /** E9x plays the note again, EDx plays it at last, when the counter runs out;
      no other mid-tick starts a note. */
  lemma MidNote(b: Bank, s: State, tremolo: int, vibrato: int, blocked: bool, t: State)
    requires Steps(b, s, Mid(tremolo, vibrato, blocked), t)
    ensures var v := s.voice;
            if !blocked && v.effect == 0xE && (v.param / 16 == 0x9 || v.param / 16 == 0xD) && v.counter == 1 && s.pitch.note != 63
            then Starts(t.chan, b.headers[v.sample], 0) && t.pitch.period == b.table(s.pitch.finetune, s.pitch.note)
            else GoesOn(s.chan, t.chan)
  {
    MidParts(b, s, tremolo, vibrato, blocked, t);
    hide Volume.MidVoice, Handle, Mixer.Playable, Step, ProperBank, TunedTo, Starts, GoesOn;
  }

  /** Arpeggio, slides and vibrato set the frequency, and so does a note. */
  lemma MidFrequency(b: Bank, s: State, tremolo: int, vibrato: int, blocked: bool, t: State)
    requires Steps(b, s, Mid(tremolo, vibrato, blocked), t)
    ensures t.pitch.vibrato == if s.voice.effect == 0x4 || s.voice.effect == 0x6 then vibrato else s.pitch.vibrato
    ensures var v := s.voice;
            var played := v.effect == 0xE && (v.param / 16 == 0x9 || v.param / 16 == 0xD) && v.counter == 1 && s.pitch.note != 63;
            if !blocked && ((v.effect == 0x0 && v.param != 0) || 1 <= v.effect <= 6 || played)
            then TunedTo(t.chan, t.pitch.period, t.pitch.vibrato)
            else t.chan.inc == s.chan.inc
  {
    MidParts(b, s, tremolo, vibrato, blocked, t);
    hide Volume.MidVoice, Handle, Mixer.Playable, Step, ProperBank, TunedTo, Starts;
  }

  // ---------------------------------------------------------------------
  // Rows
  // ---------------------------------------------------------------------

  /** Does the row start its note?  Not with tone portamento and note delay. */
  predicate StartsNote(cell: Cell) {
    cell.note != 63 && cell.effect != 0x3 && cell.effect != 0x5 && !Special(cell.effect, cell.param, 0xD)
  }

  /** The sample a cell selects, or the one selected before. */
  function Selected(b: Bank, s: State, cell: Cell): nat { if cell.sample < |b.headers| then cell.sample else s.voice.sample }

  /** How a row is put together. */
  lemma RowParts(b: Bank, s: State, cell: Cell, blocked: bool, t: State)
    requires Steps(b, s, Row(cell, blocked), t)
    ensures Selected(b, s, cell) < |b.headers| <= 31
    ensures var v := Volume.RowVoice(s.voice, cell, Volumes(b), blocked);
            var (q, rq) := RowPitch(b, s.pitch, v.sample, cell);
            && t.voice == v && v.sample == Selected(b, s, cell)
            && t.pitch == q.(period := t.pitch.period)
            && t.chan.vol == v.mixVol
            && (blocked ==> t.pitch.period == q.period && GoesOn(s.chan, t.chan) && t.chan.inc == s.chan.inc)
            && (!blocked ==>
                  && t.pitch.period == (var p := if rq.play then b.table(q.finetune, q.note) else q.period;
                                        if rq.fineSlide == 0 then p else Between(53, 1814, p + rq.fineSlide))
                  && (if rq.play then Starts(t.chan, b.headers[v.sample], rq.offset) else GoesOn(s.chan, t.chan))
                  && (if rq.play || rq.setFreq || rq.fineSlide != 0 then TunedTo(t.chan, t.pitch.period, t.pitch.vibrato)
                      else t.chan.inc == s.chan.inc))
  {
    hide Volume.RowVoice, Volume.Legal, Mixer.Playable, RowPitch, Handle, ProperBank, TunedTo, Starts, Between;
    VolumesLegal(b);
    BankSize(b);
    Volume.RowKeepsLegal(s.voice, cell, Volumes(b), blocked);
    RowVoiceSample(s.voice, cell, Volumes(b), blocked);
    var v := Volume.RowVoice(s.voice, cell, Volumes(b), blocked);
    VolumeKeepsPlayable(s, v);
    RowPitchTuned(b, s, v.sample, cell, blocked);
    var (q, rq) := RowPitch(b, s.pitch, v.sample, cell);
    if !blocked { Handled(b, State(v, q, s.chan.(vol := v.mixVol)), rq, t); }
  }

  /** A sample number sets its volume; Cxx sets the volume, at most 64; EAx and
      EBx slide it.  The mixer gets it, with the tremolo, unless the note is
      delayed. */
  lemma RowVolume(b: Bank, s: State, cell: Cell, blocked: bool, t: State)
    requires Steps(b, s, Row(cell, blocked), t)
    ensures var given := cell.sample < |b.headers|;
            var base := if given then b.headers[cell.sample].vol else s.voice.vol;
            var up, down := Special(cell.effect, cell.param, 0xA), Special(cell.effect, cell.param, 0xB);
            && t.voice.vol == (if cell.effect == 0xC then Min(64, cell.param)
                               else if up then Min(64, base + cell.param % 16)
                               else if down then Max(0, base - cell.param % 16)
                               else base)
            && t.voice.tremolo == s.voice.tremolo
            && t.chan.vol == (if !blocked && (cell.effect == 0xC || up || down || (given && !Special(cell.effect, cell.param, 0xD)))
                              then Between(0, 64, t.voice.vol + t.voice.tremolo) else s.chan.vol)
  {
    hide RowPitch, Handle, Mixer.Playable, Step, ProperBank, TunedTo, Starts, GoesOn, Volume.RowVoice, Special, Between;
    RowParts(b, s, cell, blocked, t);
    RowBase(b, s, cell);
    VoiceVolume(s.voice, cell, Volumes(b), blocked);
  }

  lemma VoiceVolume(v: Volume.Voice, cell: Cell, volumes: seq<nat>, blocked: bool)
    requires |volumes| <= 31 && v.vol <= 64 && -128 <= v.tremolo <= 127
    requires cell.sample < |volumes| ==> volumes[cell.sample] <= 64
    ensures var given := cell.sample < |volumes|;
            var base := if given then volumes[cell.sample] else v.vol;
            var up, down := Special(cell.effect, cell.param, 0xA), Special(cell.effect, cell.param, 0xB);
            var w := Volume.RowVoice(v, cell, volumes, blocked);
            && w.vol == (if cell.effect == 0xC then Min(64, cell.param)
                         else if up then Min(64, base + cell.param % 16)
                         else if down then Max(0, base - cell.param % 16)
                         else base)
            && w.tremolo == v.tremolo
            && w.mixVol == (if !blocked && (cell.effect == 0xC || up || down || (given && !Special(cell.effect, cell.param, 0xD)))
                            then Between(0, 64, w.vol + w.tremolo) else v.mixVol)
  {
    var given := cell.sample < |volumes|;
    var base := v.(effect := cell.effect, param := cell.param);
    var x := if given then base.(sample := cell.sample, vol := volumes[cell.sample]) else base;
    EffectVolume(x, cell.note, cell.effect, cell.param, given);
    hide Volume.VolumeEffect, Volume.VolumeSlide, Special;
    var w := Volume.RowVoice(v, cell, volumes, blocked);
    assert w.vol <= 64;
    Slides(w.vol, v.tremolo);
  }

  lemma EffectVolume(v: Volume.Voice, note: nat, effect: nat, param: nat, flag: bool)
    requires v.vol <= 64
    ensures var up, down := Special(effect, param, 0xA), Special(effect, param, 0xB);
            var (w, update) := Volume.VolumeEffect(v, note, effect, param, flag);
            && w.vol == (if effect == 0xC then Min(64, param)
                         else if up then Min(64, v.vol + param % 16)
                         else if down then Max(0, v.vol - param % 16)
                         else v.vol)
            && w.tremolo == v.tremolo && w.mixVol == v.mixVol
            && (update <==> effect == 0xC || up || down || (flag && !Special(effect, param, 0xD)))
  {
    Slides(v.vol, param % 16);
    Slides(v.vol, -(param % 16));
    hide Volume.VolumeSlide;
  }

  lemma RowBase(b: Bank, s: State, cell: Cell)
    requires ProperBank(b) && Sound(b, s)
    ensures s.voice.vol <= 64 && -128 <= s.voice.tremolo <= 127 && s.chan.vol == s.voice.mixVol
    ensures cell.sample < |b.headers| ==> b.headers[cell.sample].vol <= 64
  {
    if cell.sample < |b.headers| { assert b.headers[cell.sample] in b.headers; }
  }

  /** What a row leaves for the mid-ticks: Axy, 5xy and 6xy set the volume slide,
      x up or y down, and are cancelled if both are given; an arpeggio without a
      note is cancelled; E9x, ECx and EDx set the counter. */
  lemma RowLeavesEffect(b: Bank, s: State, cell: Cell, blocked: bool, t: State)
    requires Steps(b, s, Row(cell, blocked), t)
    ensures var x, y := cell.param / 16, cell.param % 16;
            var slides := cell.effect == 0x5 || cell.effect == 0x6 || cell.effect == 0xA;
            && t.voice.slideSpeed == (if slides && x > 0 && y == 0 then x as int else if slides && x == 0 && y > 0 then -(y as int)
                                      else s.voice.slideSpeed)
            && (if (slides && x > 0 && y > 0) || (cell.effect == 0x0 && cell.note == 63)
                then t.voice.effect == 0 && t.voice.param == 0
                else t.voice.effect == cell.effect && t.voice.param == cell.param)
            && t.voice.counter == (if cell.effect == 0x0 && cell.param != 0 then 0
                                   else if cell.effect == 0xE && x in {0x9, 0xC, 0xD} then y
                                   else s.voice.counter)
            && t.voice.sample == Selected(b, s, cell)
  {
    RowParts(b, s, cell, blocked, t);
    hide RowPitch, Handle, Mixer.Playable, Step, ProperBank, TunedTo, Starts, GoesOn, Volume.VolumeSlide;
  }

  /** The pitch after a row: a note takes its period from the table, E5x sets
      the finetune and with a note the period; then E1x adds x to the period and
      E2x takes x from it, against the direction of 1xx and 2xx. */
  lemma RowPeriod(b: Bank, s: State, cell: Cell, blocked: bool, t: State)
    requires Steps(b, s, Row(cell, blocked), t)
    ensures var x := cell.param % 16;
            var f0 := if cell.sample < |b.headers| then b.headers[cell.sample].finetune else s.pitch.finetune;
            var fine := Special(cell.effect, cell.param, 0x5);
            var p := if (fine && cell.note != 63) || (!blocked && StartsNote(cell)) then b.table(t.pitch.finetune, cell.note)
                     else s.pitch.period;
            && t.pitch.note == cell.note
            && t.pitch.finetune == (if fine then x else f0)
            && t.pitch.period == (if !blocked && x > 0 && Special(cell.effect, cell.param, 0x1) then Between(53, 1814, p + x)
                                  else if !blocked && x > 0 && Special(cell.effect, cell.param, 0x2) then Between(53, 1814, p - x)
                                  else p)
            && t.pitch.vibrato == s.pitch.vibrato
  {
    RowParts(b, s, cell, blocked, t);
    hide Volume.RowVoice, Handle, Mixer.Playable, Step, ProperBank, TunedTo, Starts, GoesOn, Between;
  }

  /** What a row sets for the slides of the mid-ticks. */
  lemma RowSlides(b: Bank, s: State, cell: Cell, blocked: bool, t: State)
    requires Steps(b, s, Row(cell, blocked), t)
    ensures t.pitch.portaSpeed == if (cell.effect == 0x1 || cell.effect == 0x2) && cell.param != 0 then cell.param else s.pitch.portaSpeed
    ensures t.pitch.toneNote == if (cell.effect == 0x3 || cell.effect == 0x5) && cell.note != 63 then cell.note else s.pitch.toneNote
    ensures t.pitch.toneSpeed == if cell.effect == 0x3 && cell.param != 0 then cell.param else s.pitch.toneSpeed
  {
    RowParts(b, s, cell, blocked, t);
    hide Volume.RowVoice, Handle, Mixer.Playable, Step, ProperBank, TunedTo, Starts, GoesOn, Between;
  }

  /** A row that starts its note starts the selected sample, 9xx 256 * xx samples
      from its beginning; any other row leaves the sample alone. */
  lemma RowNote(b: Bank, s: State, cell: Cell, blocked: bool, t: State)
    requires Steps(b, s, Row(cell, blocked), t)
    ensures Selected(b, s, cell) < |b.headers|
    ensures if !blocked && StartsNote(cell)
            then Starts(t.chan, b.headers[Selected(b, s, cell)], if cell.effect == 0x9 then cell.param else 0)
            else GoesOn(s.chan, t.chan)
  {
    RowParts(b, s, cell, blocked, t);
    hide Volume.RowVoice, Handle, Mixer.Playable, Step, ProperBank, TunedTo, Starts, GoesOn, Between;
  }

  /** Notes, E1x, E2x, and E5x with a note set the frequency. */
  lemma RowFrequency(b: Bank, s: State, cell: Cell, blocked: bool, t: State)
    requires Steps(b, s, Row(cell, blocked), t)
    ensures if !blocked && (StartsNote(cell) || Special(cell.effect, cell.param, 0x1) || Special(cell.effect, cell.param, 0x2)
                            || (Special(cell.effect, cell.param, 0x5) && cell.note != 63))
            then TunedTo(t.chan, t.pitch.period, t.pitch.vibrato)
            else t.chan.inc == s.chan.inc
  {
    RowParts(b, s, cell, blocked, t);
    hide Volume.RowVoice, Handle, Mixer.Playable, Step, ProperBank, TunedTo, Starts, GoesOn, Between;
  }

  // ---------------------------------------------------------------------
  // Stopping
  // ---------------------------------------------------------------------

  /** A silenced channel adds nothing to the mix from then on, and keeps what the
      effects remember. */
  lemma SilencedIsSilent(r: Result, k: nat)
    requires r.Fine?
    ensures Silenced(r).Fine? && Mixer.Cell(Silenced(r).state.chan, k) == 0
    ensures Silenced(r).state.voice == r.state.voice && Silenced(r).state.pitch == r.state.pitch
  {
    Mixer.Silence(Silenced(r).state.chan, 0, k);
  }
}
