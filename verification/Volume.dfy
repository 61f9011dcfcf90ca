/**
 Channel volumes in apps/modPlayer/modPlayer.cpp: sample volumes, set volume
 (Cxx), volume slides (Axy, 5xy, 6xy), fine slides (EAx, EBx), note cut (ECx),
 note delay (EDx) and tremolo, with the unsigned arithmetic of MODVolumeSlide.
 The tremolo waveform is left open: each mid tick brings an arbitrary slide.
 */
module Volume {
  import opened Arithmetic
  import opened Common
  import opened Sequencer

  const NO_NOTE: nat := 63
  const NO_SAMPLE: nat := 31
  const MAX_VOLUME: nat := 64

  /** The volume-related fields of SMODChannel, and the mixer channel's vol.
      `counter` is the union of retrigTick, noteCutTick, noteDelayTick and
      arpeggioTick. */
  datatype Voice = Voice(sample: nat, vol: nat, effect: nat, param: nat, slideSpeed: int, counter: nat,
                         tremolo: int, mixVol: nat)

  /** MODVolumeSlide: unsigned addition, then one comparison. */
  function VolumeSlide(volume: nat, slide: int): nat {
    var v := (volume + slide) % WORD;
    if v > MAX_VOLUME then (if slide > 0 then MAX_VOLUME else 0) else v
  }

  function Clamp(x: int): nat { if x < 0 then 0 else if x > MAX_VOLUME then MAX_VOLUME else x }

  /** On legal volumes the single unsigned comparison clamps both ways. */
  lemma VolumeSlideClamps(volume: nat, slide: int)
    requires volume <= MAX_VOLUME && -128 <= slide <= 127
    ensures VolumeSlide(volume, slide) == Clamp(volume + slide)
  {
    var x := volume + slide;
    if x < 0 {
      DivModShift(x, 1, WORD);
      ModSmall(x + WORD, WORD);
    } else {
      ModSmall(x, WORD);
    }
  }

  /** MODHandleUpdateFlags with MOD_UPD_FLG_SET_VOL. */
  function SetMixVolume(v: Voice): Voice {
    v.(mixVol := if v.tremolo != 0 then VolumeSlide(v.vol, v.tremolo) else v.vol)
  }

  /** fxVolslideRow. */
  function SlideRow(v: Voice, param: nat): Voice {
    if param == 0 then v
    else if param % 16 == 0 then v.(slideSpeed := param / 16)
    else if param / 16 == 0 then v.(slideSpeed := 0 - (param as int))
    else v.(effect := 0, param := 0)
  }

  /** fxTonePortaRow, as far as it cancels the effect. */
  function TonePortaRow(v: Voice): Voice {
    if v.sample == NO_SAMPLE then v.(effect := 0, param := 0) else v
  }

  /** The row effects; the flag says whether the mixer volume is to be set. */
  function VolumeEffect(v: Voice, note: nat, effect: nat, param: nat, flag: bool): (Voice, bool) {
    var lo := param % 16;
    if effect == 0 && param == 0 then (v, flag)
    else if effect == 0x0 then
      var w := v.(counter := 0);
      (if note == NO_NOTE then w.(effect := 0, param := 0) else w, flag)
    else if effect == 0x3 then (TonePortaRow(v), flag)
    else if effect == 0x5 then (TonePortaRow(SlideRow(v, param)), flag)
    else if effect == 0x6 || effect == 0xA then (SlideRow(v, param), flag)
    else if effect == 0xC then (v.(vol := if param > MAX_VOLUME then MAX_VOLUME else param), true)
    else if effect == 0xE then
      match param / 16
      case 0x9 => (v.(counter := lo), flag)
      case 0xA => (v.(vol := VolumeSlide(v.vol, lo)), true)
      case 0xB => (v.(vol := VolumeSlide(v.vol, -lo)), true)
      case 0xC => (v.(counter := lo), flag)
      case 0xD => (v.(counter := lo), false)
      case _ => (v, flag)
    else (v, flag)
  }

  /** One channel of MODProcessRow. */
  function RowVoice(v: Voice, cell: Cell, headers: seq<nat>, blocked: bool): Voice {
    var w := v.(effect := cell.effect, param := cell.param);
    var sampled := cell.sample != NO_SAMPLE && cell.sample < |headers|;
    var x := if sampled then w.(sample := cell.sample, vol := headers[cell.sample]) else w;
    var (y, flag) := VolumeEffect(x, cell.note, cell.effect, cell.param, sampled);
    if flag && !blocked then SetMixVolume(y) else y
  }

  /** Decrementing the 8-bit counter. */
  function CountDown(v: Voice): Voice { v.(counter := if v.counter == 0 then 255 else v.counter - 1) }

  /** The mid-tick effects; `slide` is what the tremolo waveform yields. */
  function MidEffect(v: Voice, slide: int): (Voice, bool) {
    match v.effect
    case 0x0 => (v.(counter := if v.counter + 1 > 2 then 0 else v.counter + 1), false)
    case 0x5 => (v.(vol := VolumeSlide(v.vol, v.slideSpeed)), true)
    case 0x6 => (v.(vol := VolumeSlide(v.vol, v.slideSpeed)), true)
    case 0x7 => (v.(tremolo := slide), true)
    case 0xA => (v.(vol := VolumeSlide(v.vol, v.slideSpeed)), true)
    case 0xE =>
      var w := CountDown(v);
      (match v.param / 16
       case 0x9 => (w, false)
       case 0xC => if w.counter == 0 then (w.(vol := 0, effect := 0, param := 0), true) else (w, false)
       case 0xD => if w.counter == 0 then (w.(effect := 0, param := 0), true) else (w, false)
       case _ => (v, false))
    case _ => (v, false)
  }

  /** One channel of MODUpdateEffects. */
  function MidVoice(v: Voice, slide: int, blocked: bool): Voice {
    if v.effect == 0 && v.param == 0 then v
    else
      var (w, flag) := MidEffect(v, slide);
      if flag && !blocked then SetMixVolume(w) else w
  }

  // ---------------------------------------------------------------------
  // The invariant
  // ---------------------------------------------------------------------

  /** What 8-bit fields hold, and the volume bound. */
  ghost predicate Legal(v: Voice) {
    && v.vol <= MAX_VOLUME && v.mixVol <= MAX_VOLUME
    && -15 <= v.slideSpeed <= 15 && -128 <= v.tremolo <= 127 && v.counter < 256
  }

  ghost predicate LegalHeaders(headers: seq<nat>) {
    forall i | 0 <= i < |headers| :: headers[i] <= MAX_VOLUME
  }

  lemma SlideLegal(v: Voice, slide: int)
    requires v.vol <= MAX_VOLUME && -128 <= slide <= 127
    ensures VolumeSlide(v.vol, slide) <= MAX_VOLUME
  {
    VolumeSlideClamps(v.vol, slide);
  }

  /** No row effect pushes a volume above 64. */
  lemma RowKeepsLegal(v: Voice, cell: Cell, headers: seq<nat>, blocked: bool)
    requires Legal(v) && LegalHeaders(headers) && cell.param < 256
    ensures Legal(RowVoice(v, cell, headers, blocked))
  {
    hide VolumeSlide;
    var w := v.(effect := cell.effect, param := cell.param);
    var sampled := cell.sample != NO_SAMPLE && cell.sample < |headers|;
    var x := if sampled then w.(sample := cell.sample, vol := headers[cell.sample]) else w;
    SlideLegal(x, cell.param % 16);
    SlideLegal(x, -(cell.param % 16));
    var y := VolumeEffect(x, cell.note, cell.effect, cell.param, sampled).0;
    assert y.vol <= MAX_VOLUME;
    SlideLegal(y, y.tremolo);
  }

  /** No mid-tick effect does either, whatever the tremolo slide. */
  lemma MidKeepsLegal(v: Voice, slide: int, blocked: bool)
    requires Legal(v) && -128 <= slide <= 127
    ensures Legal(MidVoice(v, slide, blocked))
  {
    hide VolumeSlide;
    SlideLegal(v, v.slideSpeed);
    var w := MidEffect(v, slide).0;
    assert w.vol <= MAX_VOLUME && -128 <= w.tremolo <= 127;
    SlideLegal(w, w.tremolo);
  }

  // ---------------------------------------------------------------------
  // Whole runs
  // ---------------------------------------------------------------------

  datatype Event = Row(cell: Cell, blocked: bool) | Mid(slide: int, blocked: bool)

  function React(v: Voice, e: Event, headers: seq<nat>): Voice {
    match e
    case Row(cell, blocked) => RowVoice(v, cell, headers, blocked)
    case Mid(slide, blocked) => MidVoice(v, slide, blocked)
  }

  function Play(v: Voice, es: seq<Event>, headers: seq<nat>): Voice {
    if es == [] then v else React(Play(v, es[..|es| - 1], headers), es[|es| - 1], headers)
  }

  ghost predicate LegalEvent(e: Event) {
    match e
    case Row(cell, _) => cell.param < 256
    case Mid(slide, _) => -128 <= slide <= 127
  }

  /** No sequence of effects pushes a channel or mixer volume above 64. */
  lemma {:induction false} VolumeBound(v: Voice, es: seq<Event>, headers: seq<nat>)
    requires Legal(v) && LegalHeaders(headers)
    requires forall i | 0 <= i < |es| :: LegalEvent(es[i])
    ensures Legal(Play(v, es, headers))
  {
    hide RowVoice, MidVoice, Legal, LegalHeaders;
    if es != [] {
      var w := Play(v, es[..|es| - 1], headers);
      VolumeBound(v, es[..|es| - 1], headers);
      assert LegalEvent(es[|es| - 1]);
      match es[|es| - 1]
      case Row(cell, blocked) => RowKeepsLegal(w, cell, headers, blocked);
      case Mid(slide, blocked) => MidKeepsLegal(w, slide, blocked);
    }
  }
}
