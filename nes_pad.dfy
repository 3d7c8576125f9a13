/**
 * The NES/SNES shift-register reader (`NESPad`): after a latch pulse the
 * pad puts one button per clock pulse on DATA, low when pressed.  The
 * reader ORs sample i into bit i of an AVR `int` (16 bits), complements it
 * and keeps the low byte in an unsigned char.  The DATA levels sampled are
 * inputs: `samples[0]` after the latch pulse, `samples[i]` after clock
 * pulse i.
 */
module NesPad {
  import opened Report
  import opened Serial

  /** `1 << i` for a bit position of the 16-bit AVR `int`. */
  function Mask(i: nat): bv16
    requires i < 16
  {
    match i
    case 0 => 0x0001 case 1 => 0x0002 case 2 => 0x0004 case 3 => 0x0008
    case 4 => 0x0010 case 5 => 0x0020 case 6 => 0x0040 case 7 => 0x0080
    case 8 => 0x0100 case 9 => 0x0200 case 10 => 0x0400 case 11 => 0x0800
    case 12 => 0x1000 case 13 => 0x2000 case 14 => 0x4000 case _ => 0x8000
  }

  /** `digitalRead(...) << i`: the level read, moved to bit `i`. */
  function Pulse(level: bool, i: nat): bv16
    requires i < 16
  {
    if level then Mask(i) else 0
  }

  /** `state` once the first `n` samples are OR-ed in. */
  function Word(samples: seq<bool>, n: nat): bv16
    requires n <= |samples| && n <= 16
  {
    if n == 0 then 0 else Word(samples, n - 1) | Pulse(samples[n - 1], n - 1)
  }

  /**
   * The number of samples `read(bits)` takes: the one after the latch
   * pulse, then one per clock pulse for i = 1 .. bits-1.
   */
  function Sampled(bits: int): (n: nat)
    ensures n >= 1 && n >= bits
    ensures bits >= 1 ==> n == bits
  {
    if bits < 1 then 1 else bits
  }

  /** `~state` kept in an unsigned char: the complement of the low byte. */
  function PadByte(state: bv16): bv8
  {
    !((state & 0xFF) as bv8)
  }

  lemma WordStep(samples: seq<bool>, i: nat)
    requires i < |samples| && i < 16
    ensures Word(samples, i + 1) == Word(samples, i) | Pulse(samples[i], i)
  {
  }

  /** The first eight samples land in bits 0..7, in order. */
  lemma FirstEightSamples(s: seq<bool>)
    requires |s| >= 8
    ensures Word(s, 8) == LsbFirst(s[..8]) as bv16
  {
    FirstEightPulses(s);
    EightPulses(s[0], s[1], s[2], s[3], s[4], s[5], s[6], s[7]);
    var d := s[..8];
    assert d[0] == s[0] && d[1] == s[1] && d[2] == s[2] && d[3] == s[3];
    assert d[4] == s[4] && d[5] == s[5] && d[6] == s[6] && d[7] == s[7];
  }

  lemma FirstEightPulses(s: seq<bool>)
    requires |s| >= 8
    ensures Word(s, 8) == Pulse(s[0], 0) | Pulse(s[1], 1) | Pulse(s[2], 2) | Pulse(s[3], 3)
      | Pulse(s[4], 4) | Pulse(s[5], 5) | Pulse(s[6], 6) | Pulse(s[7], 7)
  {
    FirstFourPulses(s);
    WordStep(s, 4);
    WordStep(s, 5);
    WordStep(s, 6);
    WordStep(s, 7);
  }

  lemma FirstFourPulses(s: seq<bool>)
    requires |s| >= 4
    ensures Word(s, 4) == Pulse(s[0], 0) | Pulse(s[1], 1) | Pulse(s[2], 2) | Pulse(s[3], 3)
  {
    WordStep(s, 0);
    WordStep(s, 1);
    WordStep(s, 2);
    WordStep(s, 3);
  }

  /** The eight pulses are the eight flags of the low byte. */
  lemma EightPulses(b0: bool, b1: bool, b2: bool, b3: bool, b4: bool, b5: bool, b6: bool, b7: bool)
    ensures Pulse(b0, 0) | Pulse(b1, 1) | Pulse(b2, 2) | Pulse(b3, 3)
          | Pulse(b4, 4) | Pulse(b5, 5) | Pulse(b6, 6) | Pulse(b7, 7)
         == (Flag(b0, 0) | Flag(b1, 1) | Flag(b2, 2) | Flag(b3, 3)
           | Flag(b4, 4) | Flag(b5, 5) | Flag(b6, 6) | Flag(b7, 7)) as bv16
  {
  }

  /** A sample from the ninth on only sets bits 8..15. */
  lemma HighPulse(level: bool, i: nat)
    requires 8 <= i < 16
    ensures Pulse(level, i) & 0xFF == 0
  {
  }

  lemma LowByteOfOr(a: bv16, p: bv16)
    requires p & 0xFF == 0
    ensures (a | p) & 0xFF == a & 0xFF
  {
  }

  /** Clock pulses past the eighth leave the low byte as the first eight samples made it. */
  lemma {:induction false} LowByteSettles(s: seq<bool>, n: nat)
    requires 8 <= n <= 16 && n <= |s|
    ensures Word(s, n) & 0xFF == Word(s, 8) & 0xFF
  {
    if n > 8 {
      LowByteSettles(s, n - 1);
      WordStep(s, n - 1);
      HighPulse(s[n - 1], n - 1);
      LowByteOfOr(Word(s, n - 1), Pulse(s[n - 1], n - 1));
    }
  }

  lemma ByteOfWideByte(x: bv8)
    ensures ((x as bv16) & 0xFF) as bv8 == x
  {
  }

  /**
   * With 8 to 16 samples, `read` returns the first eight samples inverted:
   * bit i is set exactly when sample i was low, that is, the button pressed.
   */
  lemma ReadIsInvertedSamples(s: seq<bool>, bits: int)
    requires 8 <= Sampled(bits) <= 16 && Sampled(bits) <= |s|
    ensures PadByte(Word(s, Sampled(bits))) == !LsbFirst(s[..8])
    ensures forall i: bv8 :: i < 8 ==> (BitSet(PadByte(Word(s, Sampled(bits))), i) <==> !s[i])
  {
    LowByteSettles(s, Sampled(bits));
    FirstEightSamples(s);
    ByteOfWideByte(LsbFirst(s[..8]));
    LsbFirstBits(s[..8]);
    forall i: bv8 | i < 8
      ensures BitSet(PadByte(Word(s, Sampled(bits))), i) <==> !s[i]
    {
      assert s[..8][i] == s[i];
      ComplementBit(LsbFirst(s[..8]), i);
    }
  }

  lemma ComplementBit(x: bv8, i: bv8)
    requires i < 8
    ensures BitSet(!x, i) <==> !BitSet(x, i)
  {
  }

  /** With 8 to 16 samples, the samples from the ninth on never reach the result. */
  lemma UpperSamplesIgnored(s: seq<bool>, t: seq<bool>, bits: int)
    requires 8 <= Sampled(bits) <= 16 && Sampled(bits) <= |s| && Sampled(bits) <= |t|
    requires s[..8] == t[..8]
    ensures PadByte(Word(s, Sampled(bits))) == PadByte(Word(t, Sampled(bits)))
  {
    ReadIsInvertedSamples(s, bits);
    ReadIsInvertedSamples(t, bits);
  }

  /** With nothing pressed (every sample high) and 8 to 16 samples, the result is 0. */
  lemma NothingPressedReadsZero(s: seq<bool>, bits: int)
    requires 8 <= Sampled(bits) <= 16 && Sampled(bits) <= |s|
    requires forall i :: 0 <= i < |s| ==> s[i]
    ensures PadByte(Word(s, Sampled(bits))) == 0
  {
    ReadIsInvertedSamples(s, bits);
    assert s[..8] == [true, true, true, true, true, true, true, true];
  }

  /**
   * The read the SNES and Neo-Geo loops need: the complement of the whole
   * 16-bit `state`, with no truncation to a byte.
   */
  function WideRead(samples: seq<bool>, bits: int): bv16
    requires Sampled(bits) <= |samples| && Sampled(bits) <= 16
  {
    !Word(samples, Sampled(bits))
  }

  lemma SecondEightPulses(s: seq<bool>)
    requires |s| >= 16
    ensures Word(s, 16) == Word(s, 8) | Pulse(s[8], 8) | Pulse(s[9], 9) | Pulse(s[10], 10) | Pulse(s[11], 11)
      | Pulse(s[12], 12) | Pulse(s[13], 13) | Pulse(s[14], 14) | Pulse(s[15], 15)
  {
    WordStep(s, 8);
    WordStep(s, 9);
    WordStep(s, 10);
    WordStep(s, 11);
    WordStep(s, 12);
    WordStep(s, 13);
    WordStep(s, 14);
    WordStep(s, 15);
  }

  /** The bit-level identity behind WideReadBits, on the high samples alone. */
  lemma HighBits(low: bv8, b8: bool, b9: bool, b10: bool, b11: bool,
                 b12: bool, b13: bool, b14: bool, b15: bool)
    ensures var w := !((low as bv16) | Pulse(b8, 8) | Pulse(b9, 9) | Pulse(b10, 10) | Pulse(b11, 11)
                       | Pulse(b12, 12) | Pulse(b13, 13) | Pulse(b14, 14) | Pulse(b15, 15));
      && ((w & 0xFF) as bv8 == !low)
      && (w & 0x0100 != 0 <==> !b8) && (w & 0x0200 != 0 <==> !b9)
      && (w & 0x0400 != 0 <==> !b10) && (w & 0x0800 != 0 <==> !b11)
      && (w & 0x1000 != 0 <==> !b12) && (w & 0x2000 != 0 <==> !b13)
      && (w & 0x4000 != 0 <==> !b14) && (w & 0x8000 != 0 <==> !b15)
  {
  }

  /**
   * The 16-sample wide read keeps the byte `read` returns in its low half,
   * and has bit i set, for i = 8..15, exactly when sample i was low.
   */
  lemma WideReadBits(s: seq<bool>)
    requires |s| >= 16
    ensures (WideRead(s, 16) & 0xFF) as bv8 == PadByte(Word(s, 16))
    ensures var w := WideRead(s, 16);
      && (w & 0x0100 != 0 <==> !s[8]) && (w & 0x0200 != 0 <==> !s[9])
      && (w & 0x0400 != 0 <==> !s[10]) && (w & 0x0800 != 0 <==> !s[11])
      && (w & 0x1000 != 0 <==> !s[12]) && (w & 0x2000 != 0 <==> !s[13])
      && (w & 0x4000 != 0 <==> !s[14]) && (w & 0x8000 != 0 <==> !s[15])
  {
    SecondEightPulses(s);
    FirstEightSamples(s);
    ReadIsInvertedSamples(s, 16);
    HighBits(LsbFirst(s[..8]), s[8], s[9], s[10], s[11], s[12], s[13], s[14], s[15]);
  }

  /**
   * The latch-and-clock loop shared by both readers: `state` gets sample 0,
   * then sample i in bit i for i = 1 .. bits-1.
   */
  method ShiftIn(bits: int, samples: seq<bool>) returns (state: bv16)
    requires Sampled(bits) <= |samples| && bits <= 16
    ensures state == Word(samples, Sampled(bits))
  {
    state := if samples[0] then 1 else 0;
    assert state == Word(samples, 1);
    var i := 1;
    while i < bits
      invariant 1 <= i <= Sampled(bits)
      invariant state == Word(samples, i)
    {
      WordStep(samples, i);
      state := state | Pulse(samples[i], i);
      i := i + 1;
    }
  }

  /** The `NESPad` class of the adapter library. */
  class Reader {
    var clockPin: int
    var latchPin: int
    var dataPin: int
    /** `nespadstate`, an unsigned char. */
    var nespadstate: bv8

    /** The default constructor: every pin -1, so `read` never samples. */
    constructor Default()
      ensures clockPin == -1 && latchPin == -1 && dataPin == -1 && nespadstate == 0
    {
      clockPin, latchPin, dataPin := -1, -1, -1;
      nespadstate := 0;
    }

    constructor (clock: int, latch: int, data: int)
      ensures clockPin == clock && latchPin == latch && dataPin == data && nespadstate == 0
    {
      clockPin, latchPin, dataPin := clock, latch, data;
      nespadstate := 0;
    }

    /** `setup`: records the three pins and clears the state. */
    method Setup(clock: int, latch: int, data: int)
      modifies this
      ensures clockPin == clock && latchPin == latch && dataPin == data && nespadstate == 0
    {
      clockPin, latchPin, dataPin := clock, latch, data;
      nespadstate := 0;
    }

    /**
     * `read(bits)`: 0 without touching the pad when the data pin is
     * negative; otherwise the complemented, byte-truncated shift-register
     * word, also kept in `nespadstate`.
     */
    method Read(bits: int, samples: seq<bool>) returns (r: int)
      requires bits <= 16
      requires dataPin >= 0 ==> Sampled(bits) <= |samples|
      modifies this`nespadstate
      ensures dataPin < 0 ==> r == 0 && nespadstate == old(nespadstate)
      ensures dataPin >= 0 ==> nespadstate == PadByte(Word(samples, Sampled(bits))) && r == nespadstate as int
      ensures 0 <= r < 256
    {
      if dataPin < 0 {
        return 0;
      }
      var state := ShiftIn(bits, samples);
      nespadstate := PadByte(state);
      r := nespadstate as int;
    }
  }
}

/**
 * The sketch's own `NESPad` (fixed pins, static members): the same loop,
 * with the result truncated through a local byte.
 */
module SketchNesPad {
  import opened NesPad

  /** `NESPad::read(bits)`: the complemented low byte of the shift-register word. */
  method Read(bits: int, samples: seq<bool>) returns (r: int)
    requires bits <= 16 && Sampled(bits) <= |samples|
    ensures r == PadByte(Word(samples, Sampled(bits))) as int
    ensures 0 <= r < 256
  {
    var state := ShiftIn(bits, samples);
    var nespadstate := PadByte(state);
    r := nespadstate as int;
  }
}
