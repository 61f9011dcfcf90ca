/**
 The resampling mixer of apps/modPlayer/modPlayer.cpp.  Positions are 12-bit
 fixed point in unsigned 32-bit words, the accumulator is a signed 16-bit
 word; both wrap-arounds are written out.
 */
module Mixer {
  import opened Arithmetic
  import opened Common

  const FRAC: nat := 4096                // 1 << MIXCHN_FRAC_BITS
  const TEMP_SIZE: nat := 736
  const MAX_LENGTH: nat := 1073725440    // (65535 + 65535) << 13
  const MAX_INC: nat := 8772             // mixFreqPeriod / MOD_PERIOD_MIN

  /** The fields of SSoundChannel; data is NULL when the channel is silent. */
  datatype ChanFields = Chan(data: Option<seq<int>>, pos: nat, inc: nat, vol: nat, length: nat, loopLength: nat)

  /** MODPlayNote ends a looping channel at loopStart + loopLength. */
  type Chan = c: ChanFields | c.loopLength <= c.length witness Chan(None, 0, 0, 0, 0, 0)

  /** A channel as MODPlayNote sets it up: the sample covers the length, the
      loop lies inside it, and nothing comes near the end of a 32-bit word. */
  ghost predicate Playable(c: Chan) {
    c.data.Some? ==>
      && c.pos < c.length <= MAX_LENGTH && c.length % FRAC == 0 && c.length <= FRAC * |c.data.value|
      && c.inc <= MAX_INC && c.vol <= 64
      && forall x | x in c.data.value :: -128 <= x <= 127
  }

  // ---------------------------------------------------------------------
  // One channel, one sample at a time
  // ---------------------------------------------------------------------

  function Wrap(pos: nat, length: nat, loopLength: nat): nat
    requires 0 < loopLength <= length
    decreases pos
  {
    if pos >= length then Wrap(pos - loopLength, length, loopLength) else pos
  }

  /** The state after one sample: advance, then stop or loop at the end. */
  function Next(c: Chan): Chan
  {
    if c.data == None then c
    else
      var pos := c.pos + c.inc;
      if pos < c.length then c.(pos := pos)
      else if c.loopLength == 0 then c.(pos := pos, data := None)
      else c.(pos := Wrap(pos, c.length, c.loopLength))
  }

  function SampleAt(d: seq<int>, pos: nat): int {
    if pos / FRAC < |d| then d[pos / FRAC] else 0
  }

  /** What the channel adds to the accumulator for one sample. */
  function Level(c: Chan): int {
    if c.data == None then 0 else SampleAt(c.data.value, c.pos) * c.vol
  }

  lemma {:induction false} WrapClosedForm(pos: nat, length: nat, loopLength: nat)
    requires 0 < loopLength <= length && length - loopLength <= pos
    ensures Wrap(pos, length, loopLength) == length - loopLength + (pos - (length - loopLength)) % loopLength
    ensures length - loopLength <= Wrap(pos, length, loopLength) < length
    decreases pos
  {
    var base := length - loopLength;
    if pos >= length {
      WrapClosedForm(pos - loopLength, length, loopLength);
      DivModShift(pos - base, -1, loopLength);
    } else {
      ModSmall(pos - base, loopLength);
    }
  }

  lemma NextPlayable(c: Chan)
    requires Playable(c)
    ensures Playable(Next(c))
  {
    if c.data.Some? && c.pos + c.inc >= c.length && c.loopLength > 0 {
      WrapClosedForm(c.pos + c.inc, c.length, c.loopLength);
    }
  }

  /** A playing channel never reads outside its sample. */
  lemma ReadInRange(c: Chan)
    requires Playable(c) && c.data.Some?
    ensures c.pos / FRAC < |c.data.value|
    ensures Level(c) == c.data.value[c.pos / FRAC] * c.vol
  {
  }

  // ---------------------------------------------------------------------
  // One channel, many samples
  // ---------------------------------------------------------------------

  function After(c: Chan, n: nat): Chan
    decreases n
  {
    if n == 0 then c else After(Next(c), n - 1)
  }

  function Out(c: Chan, n: nat): (r: seq<int>)
    ensures |r| == n
    decreases n
  {
    if n == 0 then [] else [Level(c)] + Out(Next(c), n - 1)
  }

  /** Playing a samples and then b is playing a + b. */
  lemma {:induction false} ChunksCompose(c: Chan, a: nat, b: nat)
    ensures After(c, a + b) == After(After(c, a), b)
    ensures Out(c, a + b) == Out(c, a) + Out(After(c, a), b)
    decreases a
  {
    if a == 0 {
      assert Out(c, 0) == [];
    } else {
      ChunksCompose(Next(c), a - 1, b);
      assert a + b - 1 == a - 1 + b;
    }
  }

  lemma {:induction false} AfterPlayable(c: Chan, n: nat)
    requires Playable(c)
    ensures Playable(After(c, n))
    decreases n
  {
    if n > 0 {
      NextPlayable(c);
      AfterPlayable(Next(c), n - 1);
    }
  }

  /** Sample k of a run is the level of the channel after k steps. */
  lemma {:induction false} OutAt(c: Chan, n: nat, k: nat)
    requires k < n
    ensures Out(c, n)[k] == Level(After(c, k))
    decreases k
  {
    if k > 0 { OutAt(Next(c), n - 1, k - 1); }
  }

  lemma {:induction false} AfterSnoc(c: Chan, n: nat)
    ensures After(c, n + 1) == Next(After(c, n))
    decreases n
  {
    if n > 0 { AfterSnoc(Next(c), n - 1); }
  }

  /** The position of a looping channel in closed form: linear until it first
      passes the end, then modulo the loop, inside the loop. */
  lemma {:induction false} LoopPosition(c: Chan, k: nat)
    requires Playable(c) && c.data.Some? && c.loopLength > 0
    ensures After(c, k) == c.(pos := LoopedPos(c, c.pos + k * c.inc))
    decreases k
  {
    hide Wrap;
    if k > 0 {
      LoopPosition(c, k - 1);
      AfterSnoc(c, k - 1);
      var x := c.pos + (k - 1) * c.inc;
      assert c.pos + k * c.inc == x + c.inc;
      var base := c.length - c.loopLength;
      if x >= c.length {
        LoopStep(base, x, c.inc, c.length, c.loopLength);
      } else if x + c.inc >= c.length {
        WrapClosedForm(x + c.inc, c.length, c.loopLength);
      }
    }
  }

  /** A channel without a loop in closed form: it advances by its step until it
      is at the end of the sample, and is silent from then on. */
  lemma {:induction false} OneShot(c: Chan, k: nat)
    requires Playable(c) && c.data.Some? && c.loopLength == 0
    ensures c.pos + k * c.inc < c.length ==> After(c, k) == c.(pos := c.pos + k * c.inc)
    ensures c.pos + k * c.inc >= c.length ==> After(c, k).data == None
    decreases k
  {
    if k > 0 {
      OneShot(c, k - 1);
      AfterSnoc(c, k - 1);
      assert c.pos + k * c.inc == c.pos + (k - 1) * c.inc + c.inc;
    }
  }

  function LoopedPos(c: Chan, x: nat): (p: nat)
    requires 0 < c.loopLength <= c.length
    ensures p < c.length
  {
    if x < c.length then x
    else c.length - c.loopLength + (x - (c.length - c.loopLength)) % c.loopLength
  }

  lemma LoopStep(base: nat, x: nat, inc: nat, length: nat, l: nat)
    requires 0 < l <= length && base == length - l && x >= length
    ensures var pos := base + (x - base) % l + inc;
            (if pos < length then pos else Wrap(pos, length, l)) == base + (x + inc - base) % l
  {
    var r := (x - base) % l;
    WrapClosedForm(base + r + inc, length, l);
    ModAdd(x - base, inc, l);
  }

  // ---------------------------------------------------------------------
  // Four channels into a 16-bit accumulator
  // ---------------------------------------------------------------------

  /** Storing a value in an int16_t. */
  function ToInt16(x: int): int {
    var r := x % 0x1_0000;
    if r < 0x8000 then r else r - 0x1_0000
  }

  lemma Int16Exact(x: int)
    requires -32768 <= x <= 32767
    ensures ToInt16(x) == x
  {
    if x < 0 { DivModShift(x, 1, 0x1_0000); ModSmall(x + 0x1_0000, 0x1_0000); } else { ModSmall(x, 0x1_0000); }
  }

  /** The accumulator cell for sample k after the channels cs, from the first. */
  function Accumulated(cs: seq<Chan>, k: nat): int
  {
    if cs == [] then 0
    else Accumulated(cs[..|cs| - 1], k) + Cell(cs[|cs| - 1], k)
  }

  function Cell(c: Chan, k: nat): int { Level(After(c, k)) }

  lemma CellBound(c: Chan, k: nat)
    requires Playable(c)
    ensures -8192 <= Cell(c, k) <= 8128
  {
    AfterPlayable(c, k);
    var e := After(c, k);
    if e.data.Some? {
      ReadInRange(e);
      var x := e.data.value[e.pos / FRAC];
      assert x in e.data.value;
      MulNonNegative(x + 128, e.vol);
      MulNonNegative(127 - x, e.vol);
    }
  }

  /** Every partial sum of at most four channels fits the accumulator. */
  lemma {:induction false} AccumulatorBound(cs: seq<Chan>, k: nat)
    requires |cs| <= 4 && forall c | c in cs :: Playable(c)
    ensures -8192 * |cs| <= Accumulated(cs, k) <= 8128 * |cs|
    ensures -32768 <= Accumulated(cs, k) <= 32512
  {
    if cs != [] {
      assert cs[|cs| - 1] in cs;
      CellBound(cs[|cs| - 1], k);
      AccumulatorBound(cs[..|cs| - 1], k);
    }
  }

  /** Both ends of the bound are reached. */
  lemma AccumulatorBoundTight() returns (low: seq<Chan>, high: seq<Chan>)
    ensures |low| == |high| == 4 && (forall c | c in low + high :: Playable(c))
    ensures Accumulated(low, 0) == -32768 && Accumulated(high, 0) == 32512
  {
    var l := Chan(Some([-128]), 0, 0, 64, FRAC, 0);
    var h := l.(data := Some([127]));
    low, high := [l, l, l, l], [h, h, h, h];
    FourTimes(l);
    FourTimes(h);
  }

  lemma FourTimes(c: Chan)
    ensures Accumulated([c, c, c, c], 0) == 4 * Cell(c, 0)
  {
    hide Cell;
    assert [c, c, c, c][..3] == [c, c, c] && [c, c, c][..2] == [c, c] && [c, c][..1] == [c] && [c][..0] == [];
    assert Accumulated([c], 0) == Cell(c, 0);
    assert Accumulated([c, c], 0) == Accumulated([c], 0) + Cell(c, 0);
    assert Accumulated([c, c, c], 0) == Accumulated([c, c], 0) + Cell(c, 0);
  }

  // ---------------------------------------------------------------------
  // The mixer
  // ---------------------------------------------------------------------

  class SoundChannel {
    var data: Option<seq<int>>
    var pos: nat
    var inc: nat
    var vol: nat
    var length: nat
    var loopLength: nat

    constructor ()
      ensures loopLength == length == 0 && Value() == Chan(None, 0, 0, 0, 0, 0)
    {
      data, pos, inc, vol, length, loopLength := None, 0, 0, 0, 0, 0;
    }

    function Value(): Chan
      requires loopLength <= length
      reads this
    {
      Chan(data, pos, inc, vol, length, loopLength)
    }

    /** The checked loop: the channel may end or loop within n samples. */
    method MixChecked(temp: array<int>, n: nat)
      requires loopLength <= length && Playable(Value()) && data.Some? && n <= temp.Length
      requires forall k | 0 <= k < n :: -32768 <= temp[k] <= 32767
      modifies this, temp
      ensures loopLength <= length && Value() == After(old(Value()), n)
      ensures forall k | 0 <= k < n :: temp[k] == ToInt16(old(temp[k]) + Cell(old(Value()), k))
      ensures forall k | n <= k < temp.Length :: temp[k] == old(temp[k])
    {
      hide Playable, Wrap;
      ghost var c: Chan := Value();
      var i := 0;
      while i < n
        invariant i <= n && data.Some? && loopLength <= length && Value() == After(c, i)
        invariant Playable(After(c, i))
        invariant forall k | 0 <= k < i :: temp[k] == ToInt16(old(temp[k]) + Cell(c, k))
        invariant forall k | i <= k < temp.Length :: temp[k] == old(temp[k])
      {
        Bounds(After(c, i));
        ReadInRange(After(c, i));
        AfterSnoc(c, i);
        NextPlayable(After(c, i));
        temp[i] := ToInt16(temp[i] + data.value[pos / FRAC] * vol);
        pos := (pos + inc) % WORD;
        if pos >= length {
          if loopLength == 0 {
            data := None;
            Silence(c, i + 1, n);
            forall k | i < k < n ensures temp[k] == ToInt16(old(temp[k]) + Cell(c, k)) {
              Silence(c, i + 1, k);
              Int16Exact(temp[k]);
            }
            return;
          } else {
            LoopBack();
          }
        }
        i := i + 1;
      }
    }

    method LoopBack()
      requires 0 < loopLength <= length
      modifies `pos
      ensures pos == Wrap(old(pos), length, loopLength)
    {
      while pos >= length
        invariant Wrap(pos, length, loopLength) == Wrap(old(pos), length, loopLength)
        decreases pos
      {
        pos := pos - loopLength;
      }
    }

    /** The fast loop, for a channel that does not reach its end. */
    method MixFast(temp: array<int>, n: nat)
      requires loopLength <= length && Playable(Value()) && data.Some? && n <= temp.Length
      requires pos + inc * n < length
      modifies this, temp
      ensures loopLength <= length && Value() == After(old(Value()), n)
      ensures forall k | 0 <= k < n :: temp[k] == ToInt16(old(temp[k]) + Cell(old(Value()), k))
      ensures forall k | n <= k < temp.Length :: temp[k] == old(temp[k])
    {
      hide Playable;
      ghost var c: Chan := Value();
      var i := 0;
      while i < n
        invariant i <= n && data.Some? && loopLength <= length && Value() == After(c, i)
        invariant Playable(After(c, i)) && pos + inc * (n - i) < length
        invariant forall k | 0 <= k < i :: temp[k] == ToInt16(old(temp[k]) + Cell(c, k))
        invariant forall k | i <= k < temp.Length :: temp[k] == old(temp[k])
      {
        Bounds(After(c, i));
        ReadInRange(After(c, i));
        AfterSnoc(c, i);
        NextPlayable(After(c, i));
        FastStep(pos, inc, n - i, length);
        temp[i] := ToInt16(temp[i] + data.value[pos / FRAC] * vol);
        pos := (pos + inc) % WORD;
        i := i + 1;
      }
    }
  }

  lemma FastStep(pos: nat, inc: nat, left: nat, length: nat)
    requires left >= 1 && pos + inc * left < length
    ensures pos + inc < length && pos + inc + inc * (left - 1) < length
  {
    MulNonNegative(inc, left - 1);
    assert inc * left == inc * (left - 1) + inc;
  }

  lemma Bounds(c: Chan)
    requires Playable(c) && c.data.Some?
    ensures c.pos < c.length && (c.pos + c.inc) % WORD == c.pos + c.inc
  {
    ModSmall(c.pos + c.inc, WORD);
  }

  /** A channel that has stopped stays as it is and is silent. */
  lemma {:induction false} Silence(c: Chan, a: nat, n: nat)
    requires a <= n && After(c, a).data == None
    ensures After(c, n) == After(c, a) && Cell(c, n) == 0
  {
    if a < n {
      Silence(c, a, n - 1);
      AfterSnoc(c, n - 1);
    }
  }

  class SoundMixer {
    const channel: array<SoundChannel?>   // SOUND_CHANNEL_COUNT
    var output: seq<int>                  // what the output channel was given

    ghost predicate Valid()
      reads channel, Channels()
    {
      channel.Length == 4 &&
      (forall i | 0 <= i < 4 :: channel[i] != null ==>
        channel[i].loopLength <= channel[i].length && Playable(channel[i].Value())) &&
      (forall i, j | 0 <= i < j < 4 :: channel[i] != null ==> channel[i] != channel[j])
    }

    ghost function Channels(): set<SoundChannel>
      reads channel
    {
      set i | 0 <= i < channel.Length && channel[i] != null :: channel[i]
    }

    /** What slot i plays; an empty slot is a silent channel. */
    ghost function Voice(i: nat): Chan
      requires Valid() && i < 4
      reads channel, Channels()
    {
      if channel[i] == null then Chan(None, 0, 0, 0, 0, 0) else channel[i].Value()
    }

    ghost function Voices(): (r: seq<Chan>)
      requires Valid()
      reads channel, Channels()
      ensures |r| == 4 && r[0] == Voice(0) && r[1] == Voice(1) && r[2] == Voice(2) && r[3] == Voice(3)
    {
      [Voice(0), Voice(1), Voice(2), Voice(3)]
    }

    constructor ()
      ensures Valid() && fresh(channel) && Channels() == {} && output == []
    {
      channel := new SoundChannel?[4](_ => null);
      output := [];
    }

    /** setChannel: other numbers are ignored. */
    method SetChannel(nr: nat, p: SoundChannel?)
      requires Valid()
      requires p != null ==> p.loopLength <= p.length && Playable(p.Value())
      requires forall i | 0 <= i < 4 && i != nr :: p != null ==> channel[i] != p
      modifies channel
      ensures Valid() && output == old(output)
      ensures forall i | 0 <= i < 4 :: channel[i] == if i == nr then p else old(channel[i])
    {
      hide Playable;
      if nr < 4 {
        channel[nr] := p;
      }
    }

    /** The first i channels are in the accumulator and have advanced. */
    ghost predicate Mixed(vs: seq<Chan>, i: nat, n: nat, temp: array<int>)
      reads channel, Channels(), temp
    {
      && Valid() && i <= 4 == |vs| && (forall c | c in vs :: Playable(c))
      && n <= TEMP_SIZE == temp.Length && temp as object != channel
      && (forall j: nat | j < i :: Voice(j) == After(vs[j], n))
      && (forall j: nat | i <= j < 4 :: Voice(j) == vs[j])
      && (forall k | 0 <= k < n :: temp[k] == Accumulated(vs[..i], k))
    }

    /** Mixes n samples of all channels. */
    method Mix(n: nat)
      requires Valid() && n <= TEMP_SIZE
      modifies this, Channels()
      ensures Valid() && Channels() == old(Channels())
      ensures Voices() == AfterAll(old(Voices()), n)
      ensures output == old(output) + MixOut(old(Voices()), n)
    {
      hide Playable, After, Accumulated, Cell, Valid, Voice, AfterAll;
      ghost var vs := Voices();
      VoicesPlayable();
      EmptyAccumulator(vs);
      var temp := ClearedBuffer(n);
      MixAll(temp, n, vs);
      assert vs[..4] == vs;
      output := output + temp[..n];
    }

    lemma VoicesPlayable()
      requires Valid()
      ensures forall c | c in Voices() :: Playable(c)
    {
    }

    method MixAll(temp: array<int>, n: nat, ghost vs: seq<Chan>)
      requires Mixed(vs, 0, n, temp)
      modifies Channels(), temp
      ensures Mixed(vs, 4, n, temp) && Channels() == old(Channels())
    {
      hide Mixed, Channels;
      var i: nat := 0;
      while i < 4
        invariant i <= 4 && Mixed(vs, i, n, temp) && Channels() == old(Channels())
      {
        MixTurn(i, temp, n, vs);
        i := i + 1;
      }
    }

    /** One turn of the loop over the channels. */
    method MixTurn(i: nat, temp: array<int>, n: nat, ghost vs: seq<Chan>)
      requires Mixed(vs, i, n, temp) && i < 4
      modifies Channels(), temp
      ensures Mixed(vs, i + 1, n, temp) && Channels() == old(Channels())
    {
      hide Playable, After, Accumulated, Cell, ToInt16, Voice, Valid;
      FitsSoFar(vs, i, n);
      Accumulates(vs, i, n);
      MixVoice(i, temp, n);
    }

    method ClearedBuffer(n: nat) returns (temp: array<int>)
      requires n <= TEMP_SIZE
      ensures fresh(temp) && temp.Length == TEMP_SIZE
      ensures forall k | 0 <= k < n :: temp[k] == 0
    {
      temp := new int[TEMP_SIZE];
      for k := 0 to n
        invariant forall j | 0 <= j < k :: temp[j] == 0
      {
        temp[k] := 0;
      }
    }

    /** The checked or the fast loop, for one channel. */
    method MixVoice(i: nat, temp: array<int>, n: nat)
      requires Valid() && i < 4 && n <= TEMP_SIZE && temp.Length == TEMP_SIZE && temp as object != channel
      requires forall k | 0 <= k < n :: -32768 <= temp[k] <= 32767
      modifies Channels(), temp
      ensures Valid() && Channels() == old(Channels())
      ensures Voice(i) == After(old(Voice(i)), n)
      ensures forall j: nat | j < 4 && j != i :: Voice(j) == old(Voice(j))
      ensures forall k | 0 <= k < n :: temp[k] == ToInt16(old(temp[k]) + Cell(old(Voice(i)), k))
    {
      hide After, Cell, Wrap;
      ghost var c := Voice(i);
      var p := channel[i];
      if p != null && p.data != None {
        AfterPlayable(c, n);
        NoWordOverflow(c, n);
        hide Playable;
        if (p.pos + (p.inc * n) % WORD) % WORD >= p.length {
          p.MixChecked(temp, n);
        } else {
          p.MixFast(temp, n);
        }
      } else {
        SilentFromStart(c, n);
        forall k | 0 <= k < n ensures temp[k] == ToInt16(temp[k] + Cell(c, k)) {
          Int16Exact(temp[k]);
        }
      }
    }
  }

  function AfterAll(vs: seq<Chan>, n: nat): (r: seq<Chan>)
    ensures |r| == |vs| && forall i | 0 <= i < |vs| :: r[i] == After(vs[i], n)
  {
    if vs == [] then [] else [After(vs[0], n)] + AfterAll(vs[1..], n)
  }

  /** The samples of n steps of all channels. */
  function MixOut(vs: seq<Chan>, n: nat): (r: seq<int>)
    ensures |r| == n && forall k | 0 <= k < n :: r[k] == Accumulated(vs, k)
  {
    seq(n, k requires 0 <= k < n => Accumulated(vs, k))
  }

  lemma NoWordOverflow(c: Chan, n: nat)
    requires Playable(c) && c.data.Some? && n <= TEMP_SIZE
    ensures (c.pos + (c.inc * n) % WORD) % WORD == c.pos + c.inc * n
  {
    MulNonNegative(c.inc, n);
    MulNonNegative(MAX_INC - c.inc, n);
    assert c.inc * n <= MAX_INC * n;
    ModSmall(c.inc * n, WORD);
    ModSmall(c.pos + c.inc * n, WORD);
  }

  lemma SilentFromStart(c: Chan, n: nat)
    requires c.data == None
    ensures After(c, n) == c && forall k | 0 <= k < n :: Cell(c, k) == 0
  {
    Silence(c, 0, n);
    forall k: nat | k < n ensures Cell(c, k) == 0 { Silence(c, 0, k); }
  }

  lemma EmptyAccumulator(vs: seq<Chan>)
    ensures forall k: nat :: Accumulated(vs[..0], k) == 0
  {
  }

  lemma FitsSoFar(vs: seq<Chan>, i: nat, n: nat)
    requires i < |vs| <= 4 && forall c | c in vs :: Playable(c)
    ensures forall k | 0 <= k < n :: -32768 <= Accumulated(vs[..i], k) <= 32767
  {
    forall k | 0 <= k < n ensures -32768 <= Accumulated(vs[..i], k) <= 32767 { AccumulatorBound(vs[..i], k); }
  }

  lemma Accumulates(vs: seq<Chan>, i: nat, n: nat)
    requires i < |vs| <= 4 && forall c | c in vs :: Playable(c)
    ensures forall k | 0 <= k < n ::
              ToInt16(Accumulated(vs[..i], k) + Cell(vs[i], k)) == Accumulated(vs[..i + 1], k)
  {
    assert vs[..i + 1][..i] == vs[..i];
    hide Playable, Cell;
    forall k | 0 <= k < n
      ensures ToInt16(Accumulated(vs[..i], k) + Cell(vs[i], k)) == Accumulated(vs[..i + 1], k)
    {
      AccumulatorBound(vs[..i + 1], k);
      Int16Exact(Accumulated(vs[..i + 1], k));
    }
  }

  // ---------------------------------------------------------------------
  // Chunking
  // ---------------------------------------------------------------------

  /** Mixing a samples and then b samples is mixing a + b samples, in the
      output and in the state of every channel. */
  lemma {:induction false} MixChunksCompose(vs: seq<Chan>, a: nat, b: nat)
    ensures MixOut(vs, a + b) == MixOut(vs, a) + MixOut(AfterAll(vs, a), b)
    ensures AfterAll(vs, a + b) == AfterAll(AfterAll(vs, a), b)
  {
    forall i | 0 <= i < |vs| ensures After(vs[i], a + b) == After(After(vs[i], a), b) {
      ChunksCompose(vs[i], a, b);
    }
    hide After;
    forall k: nat | k < b ensures Accumulated(vs, a + k) == Accumulated(AfterAll(vs, a), k) {
      AccumulatedShift(vs, a, k);
    }
  }

  lemma {:induction false} AccumulatedShift(vs: seq<Chan>, a: nat, k: nat)
    ensures Accumulated(vs, a + k) == Accumulated(AfterAll(vs, a), k)
  {
    if vs != [] {
      var last := |vs| - 1;
      AccumulatedShift(vs[..last], a, k);
      ChunksCompose(vs[last], a, k);
      assert AfterAll(vs, a)[..last] == AfterAll(vs[..last], a);
    }
  }
}
