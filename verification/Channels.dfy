/**
 One channel of the MOD player from the cells of a song to the mixer: rows and
 mid-ticks of apps/modPlayer/modPlayer.cpp with their notes, pitch effects and
 volume effects, and what they store in the sound channel.  What the mixer
 relies on holds over every run, unless the code divides by a period of 0 or
 starts a sample behind its end; both are characterised exactly.  The waveforms
 of vibrato and tremolo are left open.
 */
module Channels {
  import opened Arithmetic
  import opened Common
  import opened Sequencer
  import Mixer
  import Volume

  const MIX_FREQ_PERIOD: nat := 464920   // ((AMIGA_VAL << 9) / mixFreq_) << 3
  const PERIOD_MIN: nat := 53
  const PERIOD_MAX: nat := 1814
  const MAX_NOTE: nat := 59
  const NO_NOTE: nat := Volume.NO_NOTE
  const NO_SAMPLE: nat := Volume.NO_SAMPLE

  /** A sample header.  Lengths are in units of two samples. */
  datatype Header = Header(data: seq<int>, length: nat, loopStart: nat, loopLength: nat, vol: nat, finetune: nat)

  /** Where a sample ends, in units of two samples. */
  function End(h: Header): nat { if h.loopLength != 0 then h.loopStart + h.loopLength else h.length }

  /** 16-bit fields, 8-bit samples, and as much data as the fields say. */
  ghost predicate Proper(h: Header) {
    && h.length < 0x1_0000 && h.loopStart < 0x1_0000 && h.loopLength < 0x1_0000
    && 2 * End(h) <= |h.data|
    && (forall x | x in h.data :: -128 <= x <= 127)
    && h.vol <= 64 && h.finetune < 16
  }

  /** The period of a finetune level and a note. */
  type Table = (nat, nat) -> nat

  /** The samples of a song and the note table. */
  datatype Bank = Bank(headers: seq<Header>, table: Table)

  ghost predicate ProperBank(b: Bank) {
    && 1 <= |b.headers| <= NO_SAMPLE
    && (forall h | h in b.headers :: Proper(h))
    && (forall f, n | 0 <= f < 16 && 0 <= n <= MAX_NOTE :: PERIOD_MIN <= b.table(f, n) <= PERIOD_MAX)
  }

  function Volumes(b: Bank): (r: seq<nat>)
    ensures |r| == |b.headers| && forall i | 0 <= i < |r| :: r[i] == b.headers[i].vol
  {
    seq(|b.headers|, i requires 0 <= i < |b.headers| => b.headers[i].vol)
  }

  // ---------------------------------------------------------------------
  // Starting a note
  // ---------------------------------------------------------------------

  /** MODPlayNote: the channel starts the sample, `offset` times 256 samples
      from its beginning. */
  function PlayNote(c: Mixer.Chan, h: Header, offset: nat): Mixer.Chan {
    Mixer.Chan(Some(h.data), offset * 0x10_0000, c.inc, c.vol, End(h) * 0x2000, h.loopLength * 0x2000)
  }

  /** The first sample the mixer reads of a note is number 256 * offset.  It
      lies before the end of the sample, and the note meets what the mixer relies
      on, exactly if the offset does; a sample of length 0 never does. */
  lemma NotePlayableIff(c: Mixer.Chan, h: Header, offset: nat)
    requires Proper(h) && c.inc <= Mixer.MAX_INC && c.vol <= 64
    ensures PlayNote(c, h, offset).pos / Mixer.FRAC == 256 * offset
    ensures 256 * offset < 2 * End(h) <==> 128 * offset < End(h)
    ensures Mixer.Playable(PlayNote(c, h, offset)) <==> 128 * offset < End(h)
  {
  }

  // ---------------------------------------------------------------------
  // Pitch
  // ---------------------------------------------------------------------

  /** The pitch-related fields of SMODChannel; vibrato is the slide. */
  datatype Pitch = Pitch(period: nat, note: nat, finetune: nat, portaSpeed: nat, toneNote: nat, toneSpeed: nat,
                         vibrato: int)

  /** MODPitchSlide. */
  function PitchSlide(period: nat, slide: int): nat {
    var p := period + slide;
    if p > PERIOD_MAX then PERIOD_MAX else if p < PERIOD_MIN then PERIOD_MIN else p
  }

  /** fxTonePortaMid: towards the period `dest`, not past it. */
  function ToneSlide(period: nat, dest: nat, speed: nat): nat {
    if period < dest then
      var p := PitchSlide(period, speed);
      if p > dest then dest else p
    else if period > dest then
      var p := PitchSlide(period, -(speed as int));
      if p < dest then dest else p
    else period
  }

  /** What an effect asks MODHandleUpdateFlags to do: play the note, slide the
      period, set the frequency. */
  datatype Request = Request(play: bool, offset: nat, fineSlide: int, setFreq: bool)

  /** The pitch part of a row effect; the sample is that of the channel. */
  function RowPitch(b: Bank, q: Pitch, sample: nat, cell: Cell): (Pitch, Request) {
    var n := if cell.sample < |b.headers| then q.(note := cell.note, finetune := b.headers[cell.sample].finetune)
             else q.(note := cell.note);
    var lo := cell.param % 16;
    var rq := Request(cell.note != NO_NOTE, 0, 0, false);
    match cell.effect
    case 0x1 => (if cell.param != 0 then n.(portaSpeed := cell.param) else n, rq)
    case 0x2 => (if cell.param != 0 then n.(portaSpeed := cell.param) else n, rq)
    case 0x3 => TonePortaRow(n, rq, sample, cell, cell.param)
    case 0x5 => TonePortaRow(n, rq, sample, cell, 0)
    case 0x9 => (n, rq.(offset := cell.param))
    case 0xE =>
      (match cell.param / 16
       case 0x1 => (n, rq.(fineSlide := lo, setFreq := true))
       case 0x2 => (n, rq.(fineSlide := -lo, setFreq := true))
       case 0x5 =>
         var m := n.(finetune := lo);
         if cell.note != NO_NOTE then (m.(period := b.table(lo, cell.note)), rq.(setFreq := true)) else (m, rq)
       case 0xD => (n, rq.(play := false))
       case _ => (n, rq))
    case _ => (n, rq)
  }

  function TonePortaRow(n: Pitch, rq: Request, sample: nat, cell: Cell, param: nat): (Pitch, Request) {
    if sample == NO_SAMPLE then (n, rq)
    else
      var m := if cell.note != NO_NOTE then n.(toneNote := cell.note) else n;
      (if param != 0 then m.(toneSpeed := param) else m, rq.(play := false))
  }

  /** The note an arpeggio is at. */
  function ArpNote(note: nat, param: nat, tick: nat): nat {
    var n := note + if tick == 0 then 0 else if tick == 1 then param / 16 else param % 16;
    if n > MAX_NOTE then MAX_NOTE else n
  }

  /** Does the counter of a retrigger or a note delay run out in this tick? */
  predicate CountsOut(v: Volume.Voice) {
    v.effect == 0xE && (v.param / 16 == 0x9 || v.param / 16 == 0xD) && Volume.CountDown(v).counter == 0
  }

  /** The pitch part of a mid-tick effect of a channel with voice v; `slide` is
      what the vibrato waveform yields. */
  function MidPitch(b: Bank, q: Pitch, v: Volume.Voice, slide: int): (Pitch, Request) {
    var rq := Request(false, 0, 0, true);
    var dest := b.table(q.finetune, q.toneNote);
    match v.effect
    case 0x0 =>
      if v.param == 0 then (q, rq.(setFreq := false))
      else (q.(period := b.table(q.finetune, ArpNote(q.note, v.param, Volume.MidEffect(v, 0).0.counter))), rq)
    case 0x1 => (q.(period := PitchSlide(q.period, -(q.portaSpeed as int))), rq)
    case 0x2 => (q.(period := PitchSlide(q.period, q.portaSpeed)), rq)
    case 0x3 => (q.(period := ToneSlide(q.period, dest, q.toneSpeed)), rq)
    case 0x4 => (q.(vibrato := slide), rq)
    case 0x5 => (q.(period := ToneSlide(q.period, dest, q.toneSpeed)), rq)
    case 0x6 => (q.(vibrato := slide), rq)
    case _ => (q, Request(CountsOut(v) && q.note != NO_NOTE, 0, 0, false))
  }

  /** What the frequency is divided by. */
  function Divisor(q: Pitch): nat {
    if q.vibrato != 0 then PitchSlide(q.period, q.vibrato / 2) else q.period
  }

  lemma DivisorZeroIff(q: Pitch)
    ensures Divisor(q) == 0 <==> q.period == 0 && q.vibrato == 0
    ensures q.period == 0 || PERIOD_MIN <= q.period ==> Divisor(q) == 0 || PERIOD_MIN <= Divisor(q)
  {
  }

  /** The sample step for a period. */
  function Increment(period: nat): nat
    requires period > 0
  {
    DivGreatest(MIX_FREQ_PERIOD, period, 0);
    MIX_FREQ_PERIOD / period
  }

  /** The step is within the mixer's limit exactly for the periods from the
      least one on. */
  lemma IncrementIff(period: nat)
    requires period > 0
    ensures Increment(period) <= Mixer.MAX_INC <==> period >= PERIOD_MIN
  {
    var q := Increment(period);
    assert MIX_FREQ_PERIOD == q * period + MIX_FREQ_PERIOD % period;
    if period >= PERIOD_MIN {
      MulNonNegative(q, period - PERIOD_MIN);
      assert q * (period - PERIOD_MIN) == q * period - q * PERIOD_MIN;
    } else {
      DivGreatest(MIX_FREQ_PERIOD, period, 8773);
    }
  }

  // ---------------------------------------------------------------------
  // One channel
  // ---------------------------------------------------------------------

  /** A channel: what the effects keep, and what the mixer reads. */
  datatype State = State(voice: Volume.Voice, pitch: Pitch, chan: Mixer.Chan)

  datatype Result = Fine(state: State) | DividedByZero | StartedPastEnd

  /** After play: everything zero and silent. */
  const Silent: State :=
    State(Volume.Voice(0, 0, 0, 0, 0, 0, 0, 0), Pitch(0, 0, 0, 0, 0, 0, 0), Mixer.Chan(None, 0, 0, 0, 0, 0))

  datatype Event =
    | Row(cell: Cell, blocked: bool)
    | Mid(tremolo: int, vibrato: int, blocked: bool)
    | Mix(samples: nat)

  ghost predicate LegalEvent(b: Bank, e: Event) {
    match e
    case Row(cell, _) =>
      && cell.param < 256 && (cell.note <= MAX_NOTE || cell.note == NO_NOTE)
      && (cell.sample < |b.headers| || cell.sample == NO_SAMPLE)
    case Mid(tremolo, vibrato, _) => -128 <= tremolo <= 127 && -128 <= vibrato <= 127
    case Mix(_) => true
  }

  /** MODHandleUpdateFlags without the volume, which is set already. */
  function Handle(b: Bank, s: State, rq: Request): Result {
    if rq.play && s.voice.sample < |b.headers| then
      var h := b.headers[s.voice.sample];
      if 128 * rq.offset >= End(h) then StartedPastEnd
      else
        var q := s.pitch.(period := b.table(s.pitch.finetune, s.pitch.note));
        SetFrequency(s.(pitch := Slid(q, rq.fineSlide), chan := PlayNote(s.chan, h, rq.offset)))
    else
      var t := s.(pitch := Slid(s.pitch, rq.fineSlide));
      if rq.setFreq || rq.fineSlide != 0 then SetFrequency(t) else Fine(t)
  }

  function Slid(q: Pitch, fineSlide: int): Pitch {
    if fineSlide != 0 then q.(period := PitchSlide(q.period, fineSlide)) else q
  }

  function SetFrequency(s: State): Result {
    if Divisor(s.pitch) == 0 then DividedByZero else Fine(s.(chan := s.chan.(inc := Increment(Divisor(s.pitch)))))
  }

  function Step(b: Bank, s: State, e: Event): Result {
    match e
    case Row(cell, blocked) =>
      var v := Volume.RowVoice(s.voice, cell, Volumes(b), blocked);
      var (q, rq) := RowPitch(b, s.pitch, v.sample, cell);
      var t := State(v, q, s.chan.(vol := v.mixVol));
      if blocked then Fine(t) else Handle(b, t, rq)
    case Mid(tremolo, vibrato, blocked) =>
      var v := Volume.MidVoice(s.voice, tremolo, blocked);
      var (q, rq) := MidPitch(b, s.pitch, s.voice, vibrato);
      var t := State(v, q, s.chan.(vol := v.mixVol));
      if blocked then Fine(t) else Handle(b, t, rq)
    case Mix(n) => Fine(s.(chan := Mixer.After(s.chan, n)))
  }

  /** A failure is final. */
  function Then(b: Bank, r: Result, e: Event): Result {
    match r
    case Fine(s) => Step(b, s, e)
    case failed => failed
  }

  function Run(b: Bank, s: State, es: seq<Event>): Result {
    if es == [] then Fine(s) else Then(b, Run(b, s, es[..|es| - 1]), es[|es| - 1])
  }

  /** stop() takes the sample away from a channel. */
  function Silenced(r: Result): Result {
    match r
    case Fine(s) => Fine(s.(chan := s.chan.(data := None)))
    case failed => failed
  }

  // ---------------------------------------------------------------------
  // What every run keeps
  // ---------------------------------------------------------------------

  predicate InRange(period: nat) { PERIOD_MIN <= period <= PERIOD_MAX }

  predicate Tuned(q: Pitch) {
    && (q.period == 0 || InRange(q.period))
    && (q.note <= MAX_NOTE || q.note == NO_NOTE) && q.finetune < 16 && q.toneNote <= MAX_NOTE
  }

  /** Volumes and pitch are in range, and the mixer's assumptions hold. */
  ghost predicate Sound(b: Bank, s: State) {
    && Volume.Legal(s.voice) && s.voice.sample < |b.headers| && Tuned(s.pitch)
    && Mixer.Playable(s.chan) && s.chan.vol == s.voice.mixVol && s.chan.inc <= Mixer.MAX_INC
  }

  /** Sound, if it did not fail. */
  ghost predicate SoundResult(b: Bank, r: Result) { r.Fine? ==> Sound(b, r.state) }

  lemma ThenSound(b: Bank, r: Result, e: Event)
    requires ProperBank(b) && SoundResult(b, r) && LegalEvent(b, e)
    ensures SoundResult(b, Then(b, r, e))
  {
    hide Sound, Step, LegalEvent, ProperBank;
    if r.Fine? { StepSound(b, r.state, e); }
  }

  lemma SilencedSound(b: Bank, r: Result)
    requires SoundResult(b, r)
    ensures SoundResult(b, Silenced(r))
  {
  }

  lemma SilentSound(b: Bank)
    requires ProperBank(b)
    ensures Sound(b, Silent)
  {
  }

  // ---------------------------------------------------------------------
  // When the period is set
  // ---------------------------------------------------------------------

  /** Does a row start its note at once? */
  predicate Plays(cell: Cell) {
    cell.note != NO_NOTE && cell.effect != 0x3 && cell.effect != 0x5 && !(cell.effect == 0xE && cell.param / 16 == 0xD)
  }

  /** A note, a finetune of a note, a fine slide, and in mid-ticks arpeggio,
      slides, and notes that were delayed or are retriggered, set the period. */
  predicate SetsPeriod(s: State, e: Event) {
    match e
    case Row(cell, blocked) =>
      || (!blocked && Plays(cell))
      || (cell.effect == 0xE && cell.param / 16 == 0x5 && cell.note != NO_NOTE)
      || (!blocked && cell.effect == 0xE && (cell.param / 16 == 0x1 || cell.param / 16 == 0x2) && cell.param % 16 != 0)
    case Mid(_, _, blocked) =>
      || (s.voice.effect == 0x0 && s.voice.param != 0)
      || s.voice.effect == 0x1 || s.voice.effect == 0x2 || s.voice.effect == 0x3 || s.voice.effect == 0x5
      || (!blocked && CountsOut(s.voice) && s.pitch.note != NO_NOTE)
    case Mix(_) => false
  }

  /** The steps that divide by 0: before any period was set, E10 or E20 without
      a note, or a vibrato whose slide is 0. */
  predicate DividesByZero(s: State, e: Event) {
    s.pitch.period == 0 &&
    match e
    case Row(cell, blocked) =>
      !blocked && cell.effect == 0xE && (cell.param == 0x10 || cell.param == 0x20) && cell.note == NO_NOTE
      && s.pitch.vibrato == 0
    case Mid(_, vibrato, blocked) => !blocked && (s.voice.effect == 0x4 || s.voice.effect == 0x6) && vibrato == 0
    case Mix(_) => false
  }

  lemma RowVoiceSample(v: Volume.Voice, cell: Cell, volumes: seq<nat>, blocked: bool)
    requires |volumes| <= NO_SAMPLE
    ensures Volume.RowVoice(v, cell, volumes, blocked).sample == if cell.sample < |volumes| then cell.sample else v.sample
  {
  }

  lemma MidVoiceSample(v: Volume.Voice, slide: int, blocked: bool)
    ensures Volume.MidVoice(v, slide, blocked).sample == v.sample
  {
  }

  /** The sample a row plays. */
  function RowSample(b: Bank, s: State, cell: Cell): nat {
    if cell.sample < |b.headers| then cell.sample else s.voice.sample
  }

  predicate PastEnd(b: Bank, sample: nat, offset: nat) {
    sample < |b.headers| && 128 * offset >= End(b.headers[sample])
  }

  /** The steps that start a sample behind its end. */
  predicate StartsPastEnd(b: Bank, s: State, e: Event) {
    match e
    case Row(cell, blocked) =>
      !blocked && Plays(cell) && PastEnd(b, RowSample(b, s, cell), if cell.effect == 0x9 then cell.param else 0)
    case Mid(_, _, blocked) =>
      !blocked && CountsOut(s.voice) && s.pitch.note != NO_NOTE && PastEnd(b, s.voice.sample, 0)
    case Mix(_) => false
  }

  /** What MODHandleUpdateFlags does with a request. */
  lemma HandleSound(b: Bank, s: State, rq: Request)
    requires ProperBank(b) && Sound(b, s) && (rq.play ==> s.pitch.note <= MAX_NOTE)
    ensures var past := rq.play && PastEnd(b, s.voice.sample, rq.offset);
            var zero := !rq.play && rq.setFreq && rq.fineSlide == 0 && s.pitch.period == 0 && s.pitch.vibrato == 0;
            match Handle(b, s, rq)
            case StartedPastEnd => past
            case DividedByZero => zero
            case Fine(t) =>
              !past && !zero && Sound(b, t) &&
              (t.pitch.period == 0 <==> !rq.play && rq.fineSlide == 0 && s.pitch.period == 0)
  {
    assert b.headers[s.voice.sample] in b.headers;
    var h := b.headers[s.voice.sample];
    var q := if rq.play then s.pitch.(period := b.table(s.pitch.finetune, s.pitch.note)) else s.pitch;
    var p := Slid(q, rq.fineSlide);
    DivisorZeroIff(p);
    if Divisor(p) > 0 { IncrementIff(Divisor(p)); }
    NotePlayableIff(s.chan, h, rq.offset);
    hide Increment, Volume.Legal, Divisor;
  }

  /** The pitch part of a row. */
  lemma RowPitchTuned(b: Bank, s: State, sample: nat, cell: Cell, blocked: bool)
    requires ProperBank(b) && Tuned(s.pitch) && sample < |b.headers| && LegalEvent(b, Row(cell, blocked))
    ensures var (q, rq) := RowPitch(b, s.pitch, sample, cell);
            && Tuned(q) && q.note == cell.note && q.vibrato == s.pitch.vibrato
            && (rq.play <==> Plays(cell))
            && rq.offset == (if cell.effect == 0x9 then cell.param else 0)
            && (rq.fineSlide != 0 ==> rq.setFreq)
            && (q.period == 0 <==>
                  s.pitch.period == 0 && !(cell.effect == 0xE && cell.param / 16 == 0x5 && cell.note != NO_NOTE))
            && (!rq.play && rq.setFreq && rq.fineSlide == 0 && q.period == 0 <==>
                  s.pitch.period == 0 && cell.effect == 0xE && (cell.param == 0x10 || cell.param == 0x20) && cell.note == NO_NOTE)
            && (rq.fineSlide != 0 <==>
                  cell.effect == 0xE && (cell.param / 16 == 0x1 || cell.param / 16 == 0x2) && cell.param % 16 != 0)
  {
    if cell.sample < |b.headers| { assert b.headers[cell.sample] in b.headers; }
  }

  /** The pitch part of a mid-tick. */
  lemma MidPitchTuned(b: Bank, s: State, slide: int)
    requires ProperBank(b) && Tuned(s.pitch)
    ensures var (q, rq) := MidPitch(b, s.pitch, s.voice, slide);
            && Tuned(q) && q.note == s.pitch.note && rq.offset == 0 && rq.fineSlide == 0
            && (rq.play <==> CountsOut(s.voice) && s.pitch.note != NO_NOTE)
            && (q.period == 0 <==>
                  s.pitch.period == 0 &&
                  !((s.voice.effect == 0x0 && s.voice.param != 0) || s.voice.effect in {0x1, 0x2, 0x3, 0x5}))
            && (!rq.play && rq.setFreq && q.period == 0 && q.vibrato == 0 <==>
                  s.pitch.period == 0 && (s.voice.effect == 0x4 || s.voice.effect == 0x6) && slide == 0)
  {
    hide Volume.MidEffect;
  }

  /** One step, completely: it divides by zero or starts past an end exactly
      under the two conditions; otherwise the channel stays sound, and its
      period is 0 exactly if it was and the step does not set it. */
  lemma StepSound(b: Bank, s: State, e: Event)
    requires ProperBank(b) && Sound(b, s) && LegalEvent(b, e)
    ensures match Step(b, s, e)
            case StartedPastEnd => StartsPastEnd(b, s, e)
            case DividedByZero => DividesByZero(s, e)
            case Fine(t) =>
              && !StartsPastEnd(b, s, e) && !DividesByZero(s, e) && Sound(b, t)
              && (t.pitch.period == 0 <==> s.pitch.period == 0 && !SetsPeriod(s, e))
  {
    match e
    case Row(cell, blocked) => RowSound(b, s, cell, blocked);
    case Mid(tremolo, vibrato, blocked) => MidSound(b, s, tremolo, vibrato, blocked);
    case Mix(n) =>
      Mixer.AfterPlayable(s.chan, n);
      KeepsSettings(s.chan, n);
      hide Volume.Legal, Mixer.Playable;
  }

  lemma VolumesLegal(b: Bank)
    requires ProperBank(b)
    ensures Volume.LegalHeaders(Volumes(b))
  {
    forall i | 0 <= i < |b.headers| ensures Volumes(b)[i] <= 64 { assert b.headers[i] in b.headers; }
  }

  lemma RowSound(b: Bank, s: State, cell: Cell, blocked: bool)
    requires ProperBank(b) && Sound(b, s) && LegalEvent(b, Row(cell, blocked))
    ensures var e := Row(cell, blocked);
            match Step(b, s, e)
            case StartedPastEnd => StartsPastEnd(b, s, e)
            case DividedByZero => DividesByZero(s, e)
            case Fine(t) =>
              && !StartsPastEnd(b, s, e) && !DividesByZero(s, e) && Sound(b, t)
              && (t.pitch.period == 0 <==> s.pitch.period == 0 && !SetsPeriod(s, e))
  {
    hide Volume.RowVoice, Volume.Legal, Mixer.Playable, RowPitch, Handle, End, ProperBank;
    VolumesLegal(b);
    Volume.RowKeepsLegal(s.voice, cell, Volumes(b), blocked);
    BankSize(b);
    RowVoiceSample(s.voice, cell, Volumes(b), blocked);
    VolumeKeepsPlayable(s, Volume.RowVoice(s.voice, cell, Volumes(b), blocked));
    var v := Volume.RowVoice(s.voice, cell, Volumes(b), blocked);
    RowPitchTuned(b, s, v.sample, cell, blocked);
    var (q, rq) := RowPitch(b, s.pitch, v.sample, cell);
    if !blocked { HandleSound(b, State(v, q, s.chan.(vol := v.mixVol)), rq); }
  }

  lemma MidSound(b: Bank, s: State, tremolo: int, vibrato: int, blocked: bool)
    requires ProperBank(b) && Sound(b, s) && LegalEvent(b, Mid(tremolo, vibrato, blocked))
    ensures var e := Mid(tremolo, vibrato, blocked);
            match Step(b, s, e)
            case StartedPastEnd => StartsPastEnd(b, s, e)
            case DividedByZero => DividesByZero(s, e)
            case Fine(t) =>
              && !StartsPastEnd(b, s, e) && !DividesByZero(s, e) && Sound(b, t)
              && (t.pitch.period == 0 <==> s.pitch.period == 0 && !SetsPeriod(s, e))
  {
    hide Volume.MidVoice, Volume.Legal, Mixer.Playable, MidPitch, Handle, End, ProperBank, CountsOut;
    Volume.MidKeepsLegal(s.voice, tremolo, blocked);
    MidVoiceSample(s.voice, tremolo, blocked);
    var v := Volume.MidVoice(s.voice, tremolo, blocked);
    VolumeKeepsPlayable(s, v);
    MidPitchTuned(b, s, vibrato);
    var (q, rq) := MidPitch(b, s.pitch, s.voice, vibrato);
    if !blocked { HandleSound(b, State(v, q, s.chan.(vol := v.mixVol)), rq); }
  }

  lemma BankSize(b: Bank)
    requires ProperBank(b)
    ensures 1 <= |b.headers| <= NO_SAMPLE
  {
  }

  lemma VolumeKeepsPlayable(s: State, v: Volume.Voice)
    requires Mixer.Playable(s.chan) && Volume.Legal(v)
    ensures Mixer.Playable(s.chan.(vol := v.mixVol))
  {
  }

  lemma {:induction false} KeepsSettings(c: Mixer.Chan, n: nat)
    ensures Mixer.After(c, n).vol == c.vol && Mixer.After(c, n).inc == c.inc
    decreases n
  {
    if n > 0 { KeepsSettings(Mixer.Next(c), n - 1); }
  }

  // ---------------------------------------------------------------------
  // Whole runs
  // ---------------------------------------------------------------------

  ghost predicate LegalEvents(b: Bank, es: seq<Event>) { forall e | e in es :: LegalEvent(b, e) }

  lemma RunStep(b: Bank, s: State, es: seq<Event>)
    requires es != []
    ensures Run(b, s, es) == Then(b, Run(b, s, es[..|es| - 1]), es[|es| - 1])
  {
  }

  lemma LegalPrefix(b: Bank, es: seq<Event>)
    requires LegalEvents(b, es) && es != []
    ensures LegalEvents(b, es[..|es| - 1]) && LegalEvent(b, es[|es| - 1])
  {
    assert es[|es| - 1] in es;
  }

  /** Over every run that does not fail: volumes, pitch and the mixer's
      assumptions. */
  lemma {:induction false} RunSound(b: Bank, s: State, es: seq<Event>)
    requires ProperBank(b) && Sound(b, s) && LegalEvents(b, es)
    ensures Run(b, s, es).Fine? ==> Sound(b, Run(b, s, es).state)
  {
    hide Sound, LegalEvents, LegalEvent, Step, ProperBank;
    if es != [] {
      LegalPrefix(b, es);
      RunStep(b, s, es);
      var before := Run(b, s, es[..|es| - 1]);
      RunSound(b, s, es[..|es| - 1]);
      if before.Fine? { StepSound(b, before.state, es[|es| - 1]); }
    }
  }

  /** Event i of the run meets the condition to fail that way. */
  ghost predicate FailsAt(b: Bank, s: State, es: seq<Event>, failure: Result, i: nat)
    requires i < |es|
  {
    var before := Run(b, s, es[..i]);
    before.Fine? &&
    match failure
    case Fine(_) => false
    case DividedByZero => DividesByZero(before.state, es[i])
    case StartedPastEnd => StartsPastEnd(b, before.state, es[i])
  }

  ghost predicate Fails(b: Bank, s: State, es: seq<Event>, failure: Result) {
    exists i: nat | i < |es| :: FailsAt(b, s, es, failure, i)
  }

  lemma FailsStep(b: Bank, s: State, es: seq<Event>, failure: Result)
    requires es != []
    ensures var last := |es| - 1;
            Fails(b, s, es, failure) <==> Fails(b, s, es[..last], failure) || FailsAt(b, s, es, failure, last)
  {
    var last := |es| - 1;
    forall i: nat | i < last
      ensures FailsAt(b, s, es, failure, i) <==> FailsAt(b, s, es[..last], failure, i)
    {
      assert es[..last][..i] == es[..i];
    }
    hide FailsAt;
    if i: nat :| i < |es| && FailsAt(b, s, es, failure, i) {
      assert i == last || FailsAt(b, s, es[..last], failure, i);
    }
    if i: nat :| i < last && FailsAt(b, s, es[..last], failure, i) {
      assert FailsAt(b, s, es, failure, i);
    }
  }

  /** Exactly when a run fails: when one of its events meets the condition on
      the state it finds. */
  lemma {:induction false} RunFailsIff(b: Bank, s: State, es: seq<Event>, failure: Result)
    requires ProperBank(b) && Sound(b, s) && LegalEvents(b, es) && !failure.Fine?
    ensures Run(b, s, es) == failure <==> Fails(b, s, es, failure)
  {
    hide Sound, LegalEvents, LegalEvent, Step, ProperBank, StartsPastEnd, DividesByZero, Fails;
    if es == [] {
      assert !Fails(b, s, es, failure) by { NeverFails(b, s, failure); }
    } else {
      LegalPrefix(b, es);
      RunStep(b, s, es);
      FailsStep(b, s, es, failure);
      var last := |es| - 1;
      var before := Run(b, s, es[..last]);
      RunFailsIff(b, s, es[..last], failure);
      RunSound(b, s, es[..last]);
      if before.Fine? {
        StepSound(b, before.state, es[last]);
        OneFailure(b, before.state, es[last]);
      }
    }
  }

  lemma OneFailure(b: Bank, s: State, e: Event)
    ensures !(DividesByZero(s, e) && StartsPastEnd(b, s, e))
  {
  }

  lemma NeverFails(b: Bank, s: State, failure: Result)
    ensures !Fails(b, s, [], failure)
  {
  }

  /** Event i of the run sets the period. */
  ghost predicate SetsAt(b: Bank, s: State, es: seq<Event>, i: nat)
    requires i < |es|
  {
    var before := Run(b, s, es[..i]);
    before.Fine? && SetsPeriod(before.state, es[i])
  }

  /** From play on, the period is 0 exactly until the first event that sets it,
      and in the range of the table from then on. */
  lemma {:induction false} PeriodSinceStart(b: Bank, es: seq<Event>)
    requires ProperBank(b) && LegalEvents(b, es) && Run(b, Silent, es).Fine?
    ensures var period := Run(b, Silent, es).state.pitch.period;
            if exists i: nat | i < |es| :: SetsAt(b, Silent, es, i) then InRange(period) else period == 0
  {
    hide Sound, LegalEvents, LegalEvent, Step, ProperBank, StartsPastEnd, DividesByZero, SetsPeriod;
    SilentSound(b);
    RunSound(b, Silent, es);
    SoundPeriod(b, Run(b, Silent, es).state);
    if es != [] {
      LegalPrefix(b, es);
      RunStep(b, Silent, es);
      var last := |es| - 1;
      var before := Run(b, Silent, es[..last]);
      PeriodSinceStart(b, es[..last]);
      RunSound(b, Silent, es[..last]);
      StepSound(b, before.state, es[last]);
      forall i: nat | i < last ensures SetsAt(b, Silent, es, i) <==> SetsAt(b, Silent, es[..last], i) {
        assert es[..last][..i] == es[..i];
      }
      assert SetsAt(b, Silent, es, last) <==> SetsPeriod(before.state, es[last]);
      hide SetsAt, Run;
      SetsStep(b, es);
    }
  }

  lemma SetsStep(b: Bank, es: seq<Event>)
    requires es != []
    requires var last := |es| - 1;
             forall i: nat | i < last :: SetsAt(b, Silent, es, i) <==> SetsAt(b, Silent, es[..last], i)
    ensures var last := |es| - 1;
            (exists i: nat | i < |es| :: SetsAt(b, Silent, es, i)) <==>
            (exists i: nat | i < last :: SetsAt(b, Silent, es[..last], i)) || SetsAt(b, Silent, es, last)
  {
    hide SetsAt;
    var last := |es| - 1;
    if i: nat :| i < |es| && SetsAt(b, Silent, es, i) {
      assert i == last || SetsAt(b, Silent, es[..last], i);
    }
    if i: nat :| i < last && SetsAt(b, Silent, es[..last], i) {
      assert SetsAt(b, Silent, es, i);
    }
  }

  lemma SoundPeriod(b: Bank, s: State)
    requires Sound(b, s)
    ensures s.pitch.period == 0 || InRange(s.pitch.period)
  {
  }

  /** The input that fails first: a row with E10 and no note after play. */
  lemma FineSlideZero(b: Bank)
    requires ProperBank(b)
    ensures LegalEvents(b, [Row(Cell(NO_NOTE, NO_SAMPLE, 0xE, 0x10), false)])
    ensures Run(b, Silent, [Row(Cell(NO_NOTE, NO_SAMPLE, 0xE, 0x10), false)]) == DividedByZero
  {
    var es := [Row(Cell(NO_NOTE, NO_SAMPLE, 0xE, 0x10), false)];
    SilentSound(b);
    assert es[..0] == [];
    assert FailsAt(b, Silent, es, DividedByZero, 0);
    RunFailsIff(b, Silent, es, DividedByZero);
  }

  /** The accumulator of the mixer never overflows: not after any runs of four
      channels that did not fail. */
  lemma RunsFitAccumulator(b: Bank, runs: seq<seq<Event>>, k: nat)
    requires ProperBank(b) && |runs| <= 4
    requires forall i | 0 <= i < |runs| :: LegalEvents(b, runs[i]) && Run(b, Silent, runs[i]).Fine?
    ensures var cs := seq(|runs|, i requires 0 <= i < |runs| => Run(b, Silent, runs[i]).state.chan);
            -32768 <= Mixer.Accumulated(cs, k) <= 32512
  {
    hide Run, LegalEvents, ProperBank, Mixer.Accumulated, Mixer.Playable;
    var cs := seq(|runs|, i requires 0 <= i < |runs| => Run(b, Silent, runs[i]).state.chan);
    SilentSound(b);
    forall c | c in cs ensures Mixer.Playable(c) {
      var i :| 0 <= i < |cs| && cs[i] == c;
      RunSound(b, Silent, runs[i]);
    }
    Mixer.AccumulatorBound(cs, k);
  }
}
