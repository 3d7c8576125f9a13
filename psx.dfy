/**
 * The PlayStation pad reader (psx.cpp): exchanging bytes with the pad bit
 * by bit, least significant bit first, and decoding the response frame of
 * the "read data" command into the pad state.  Pin levels are inputs: the
 * DAT level sampled at each of the eight clock pulses of a byte.
 */
module Psx {
  import opened Report
  import opened Serial

  const IdDigital: bv8 := 0x41
  const IdAnalogRed: bv8 := 0x73
  const IdAnalogGreen: bv8 := 0x53

  /** Length of the `ps2_data` buffer. */
  const FrameBufferSize := 22

  /** The "read data" command: 0x01, 0x42, then seven zero bytes. */
  const ReadDataCommand: seq<bv8> := [0x01, 0x42, 0x00, 0x00, 0x00, 0x00, 0x00, 0x00, 0x00]

  /** `psxpad_state_t`: each button true when pressed; axes with 0x80 in the middle. */
  datatype PadState = PadState(
    square: bool, cross: bool, circle: bool, triangle: bool,
    l1: bool, r1: bool, l2: bool, r2: bool,
    select: bool, start: bool, l3: bool, r3: bool,
    up: bool, down: bool, left: bool, right: bool,
    lx: bv8, ly: bv8, rx: bv8, ry: bv8)

  /** The state `psx_init` sets: nothing pressed, all four axes centred. */
  const InitialPadState: PadState :=
    PadState(false, false, false, false, false, false, false, false,
             false, false, false, false, false, false, false, false, 0x80, 0x80, 0x80, 0x80)

  // ---------------------------------------------------------------------
  // Byte exchange (`psx_command`)
  // ---------------------------------------------------------------------

  /**
   * The byte after n steps of the source's inner loop: shift right, then
   * put the sample in bit 7.
   */
  function Shifted(d: seq<bool>, n: nat): bv8
    requires n <= |d|
  {
    if n == 0 then 0 else (Shifted(d, n - 1) >> 1) | Flag(d[n - 1], 7)
  }

  /** Eight shift steps put the samples in least-significant-first order. */
  lemma ShiftedIsLsbFirst(d: seq<bool>)
    requires |d| == 8
    ensures Shifted(d, 8) == LsbFirst(d)
  {
    var s0, s1, s2, s3 := Flag(d[0], 7), Flag(d[1], 7), Flag(d[2], 7), Flag(d[3], 7);
    var s4, s5, s6, s7 := Flag(d[4], 7), Flag(d[5], 7), Flag(d[6], 7), Flag(d[7], 7);
    assert Shifted(d, 1) == s0;
    assert Shifted(d, 2) == (s0 >> 1) | s1;
    assert Shifted(d, 3) == (((s0 >> 1) | s1) >> 1) | s2;
    assert Shifted(d, 4) == (((((s0 >> 1) | s1) >> 1) | s2) >> 1) | s3;
    assert Shifted(d, 5) == (Shifted(d, 4) >> 1) | s4;
    assert Shifted(d, 6) == (Shifted(d, 5) >> 1) | s5;
    assert Shifted(d, 7) == (Shifted(d, 6) >> 1) | s6;
    assert Shifted(d, 8) == (Shifted(d, 7) >> 1) | s7;
    EightShifts(d[0], d[1], d[2], d[3], d[4], d[5], d[6], d[7]);
  }

  /** One shift step, written as the source writes it: shift right, then set bit 7 for a high sample. */
  lemma ShiftStep(d: seq<bool>, n: nat)
    requires n < |d|
    ensures Shifted(d, n + 1) == if d[n] then (Shifted(d, n) >> 1) | 0x80 else Shifted(d, n) >> 1
  {
  }

  /** The bit-level identity behind ShiftedIsLsbFirst, on the eight samples alone. */
  lemma EightShifts(b0: bool, b1: bool, b2: bool, b3: bool, b4: bool, b5: bool, b6: bool, b7: bool)
    ensures var s4 := (((((((Flag(b0, 7) >> 1) | Flag(b1, 7)) >> 1) | Flag(b2, 7)) >> 1) | Flag(b3, 7)));
      (((((((s4 >> 1) | Flag(b4, 7)) >> 1) | Flag(b5, 7)) >> 1) | Flag(b6, 7)) >> 1) | Flag(b7, 7)
        == Flag(b0, 0) | Flag(b1, 1) | Flag(b2, 2) | Flag(b3, 3)
           | Flag(b4, 4) | Flag(b5, 5) | Flag(b6, 6) | Flag(b7, 7)
  {
  }

  /**
   * One byte of `psx_command`: at step i the CMD line carries bit i of
   * `command`, and the DAT sample of step i becomes bit i of the result.
   */
  method ExchangeByte(command: bv8, dat: seq<bool>) returns (data: bv8, cmd: seq<bool>)
    requires |dat| == 8
    ensures data == LsbFirst(dat)
    ensures |cmd| == 8 && forall i :: 0 <= i < 8 ==> (cmd[i] <==> BitSet(command, i as bv8))
  {
    data := 0;
    cmd := [];
    ghost var levels := CommandLevels(command);
    var i := 0;
    while i < 8
      invariant 0 <= i <= 8
      invariant data == Shifted(dat, i)
      invariant cmd == levels[..i]
    {
      cmd := cmd + [BitSet(command, i as bv8)];
      assert cmd == levels[..i + 1];
      ShiftStep(dat, i);
      data := data >> 1;
      if dat[i] {
        data := data | 0x80;
      }
      i := i + 1;
    }
    assert cmd == levels;
    ShiftedIsLsbFirst(dat);
  }

  /** The CMD levels of one byte, least significant bit first. */
  function CommandLevels(command: bv8): (levels: seq<bool>)
    ensures |levels| == 8 && forall i :: 0 <= i < 8 ==> (levels[i] <==> BitSet(command, i as bv8))
  {
    seq(8, i requires 0 <= i < 8 => BitSet(command, i as bv8))
  }

  // ---------------------------------------------------------------------
  // Response frame (`psx_read`)
  // ---------------------------------------------------------------------

  predicate KnownId(id: bv8)
  {
    id == IdDigital || id == IdAnalogRed || id == IdAnalogGreen
  }

  /**
   * The pad state after `psx_read` sees `frame`: unchanged unless byte 1
   * is a known id and byte 2 is 0x5A; buttons active-low in bytes 3 and 4;
   * L3/R3 only from an analog-red pad; axes from bytes 5..8 for analog
   * pads, centred for the digital one.
   */
  function DecodeFrame(prev: PadState, frame: seq<bv8>): PadState
    requires |frame| >= 9
  {
    var id := frame[1];
    if !(KnownId(id) && frame[2] == 0x5A) then prev
    else
      var b3 := frame[3];
      var b4 := frame[4];
      var analog := id == IdAnalogRed || id == IdAnalogGreen;
      PadState(
        square := !BitSet(b4, 7), cross := !BitSet(b4, 6),
        circle := !BitSet(b4, 5), triangle := !BitSet(b4, 4),
        l1 := !BitSet(b4, 2), r1 := !BitSet(b4, 3), l2 := !BitSet(b4, 0), r2 := !BitSet(b4, 1),
        select := !BitSet(b3, 0), start := !BitSet(b3, 3),
        l3 := if id == IdAnalogRed then !BitSet(b3, 1) else prev.l3,
        r3 := if id == IdAnalogRed then !BitSet(b3, 2) else prev.r3,
        up := !BitSet(b3, 4), down := !BitSet(b3, 6), left := !BitSet(b3, 7), right := !BitSet(b3, 5),
        lx := if analog then frame[7] else 0x80,
        ly := if analog then frame[8] else 0x80,
        rx := if analog then frame[5] else 0x80,
        ry := if analog then frame[6] else 0x80)
  }

  /** Eight flags packed active-low: flag k pressed is bit k clear. */
  function ActiveLow(f0: bool, f1: bool, f2: bool, f3: bool, f4: bool, f5: bool, f6: bool, f7: bool): bv8
  {
    !(Flag(f0, 0) | Flag(f1, 1) | Flag(f2, 2) | Flag(f3, 3)
      | Flag(f4, 4) | Flag(f5, 5) | Flag(f6, 6) | Flag(f7, 7))
  }

  lemma ActiveLowBits(f0: bool, f1: bool, f2: bool, f3: bool, f4: bool, f5: bool, f6: bool, f7: bool)
    ensures var b := ActiveLow(f0, f1, f2, f3, f4, f5, f6, f7);
      && (!BitSet(b, 0) <==> f0) && (!BitSet(b, 1) <==> f1) && (!BitSet(b, 2) <==> f2)
      && (!BitSet(b, 3) <==> f3) && (!BitSet(b, 4) <==> f4) && (!BitSet(b, 5) <==> f5)
      && (!BitSet(b, 6) <==> f6) && (!BitSet(b, 7) <==> f7)
  {
  }

  /** The frame a pad in state `s` answers with, byte 0 aside. */
  function EncodeFrame(s: PadState, id: bv8): (frame: seq<bv8>)
    ensures |frame| == 9 && frame[1] == id && frame[2] == 0x5A
  {
    [0xFF, id, 0x5A,
     ActiveLow(s.select, s.l3, s.r3, s.start, s.up, s.right, s.down, s.left),
     ActiveLow(s.l2, s.r2, s.l1, s.r1, s.triangle, s.circle, s.cross, s.square),
     s.rx, s.ry, s.lx, s.ly]
  }

  /**
   * Decoding the frame a pad sends gives back its state, except that a
   * digital pad reports centred axes, and L3/R3 are only taken from an
   * analog-red pad.
   */
  lemma DecodeEncodeFrame(prev: PadState, s: PadState, id: bv8)
    requires KnownId(id)
    ensures DecodeFrame(prev, EncodeFrame(s, id))
         == s.(l3 := if id == IdAnalogRed then s.l3 else prev.l3,
               r3 := if id == IdAnalogRed then s.r3 else prev.r3,
               lx := if id == IdDigital then 0x80 else s.lx,
               ly := if id == IdDigital then 0x80 else s.ly,
               rx := if id == IdDigital then 0x80 else s.rx,
               ry := if id == IdDigital then 0x80 else s.ry)
  {
    DecodedByteThree(prev, s, id);
    DecodedByteFour(prev, s, id);
  }

  /** The direction, Select, Start, L3 and R3 flags come back from byte 3. */
  lemma DecodedByteThree(prev: PadState, s: PadState, id: bv8)
    requires KnownId(id)
    ensures var r := DecodeFrame(prev, EncodeFrame(s, id));
      && r.select == s.select && r.start == s.start
      && r.up == s.up && r.down == s.down && r.left == s.left && r.right == s.right
      && r.l3 == (if id == IdAnalogRed then s.l3 else prev.l3)
      && r.r3 == (if id == IdAnalogRed then s.r3 else prev.r3)
  {
    ActiveLowBits(s.select, s.l3, s.r3, s.start, s.up, s.right, s.down, s.left);
  }

  /** The shape and shoulder buttons come back from byte 4. */
  lemma DecodedByteFour(prev: PadState, s: PadState, id: bv8)
    requires KnownId(id)
    ensures var r := DecodeFrame(prev, EncodeFrame(s, id));
      && r.square == s.square && r.cross == s.cross && r.circle == s.circle && r.triangle == s.triangle
      && r.l1 == s.l1 && r.r1 == s.r1 && r.l2 == s.l2 && r.r2 == s.r2
  {
    ActiveLowBits(s.l2, s.r2, s.l1, s.r1, s.triangle, s.circle, s.cross, s.square);
  }

  /** A frame with an unknown id or without the 0x5A marker changes nothing. */
  lemma RejectedFrameKeepsState(prev: PadState, frame: seq<bv8>)
    requires |frame| >= 9 && (!KnownId(frame[1]) || frame[2] != 0x5A)
    ensures DecodeFrame(prev, frame) == prev
  {
  }

  /** The global `ps2_data` buffer and `pad_state`. */
  class PsxPort {
    const ps2Data: array<bv8>
    var padState: PadState

    ghost predicate Valid()
      reads this
    {
      ps2Data.Length == FrameBufferSize
    }

    /** Static storage: a zeroed buffer and an all-zero state. */
    constructor ()
      ensures Valid() && fresh(ps2Data)
      ensures forall j :: 0 <= j < FrameBufferSize ==> ps2Data[j] == 0
      ensures padState == InitialPadState.(lx := 0, ly := 0, rx := 0, ry := 0)
    {
      ps2Data := new bv8[FrameBufferSize](_ => 0);
      padState := InitialPadState.(lx := 0, ly := 0, rx := 0, ry := 0);
    }

    /**
     * `psx_command`: with `size` at most 22, byte j of the answer, taken
     * from the samples `dat[j]`, goes to `ps2Data[j]`; a longer command is
     * refused and nothing is written.  `levels[j]` are the CMD levels
     * driven for byte j.
     */
    method Command(command: seq<bv8>, size: int, dat: seq<seq<bool>>) returns (levels: seq<seq<bool>>)
      requires Valid() && 0 <= size < 256
      requires size <= FrameBufferSize ==> |command| >= size && |dat| >= size
      requires forall j :: 0 <= j < |dat| ==> |dat[j]| == 8
      modifies ps2Data
      ensures size > FrameBufferSize ==> ps2Data[..] == old(ps2Data[..]) && levels == []
      ensures size <= FrameBufferSize ==>
        && (forall j :: 0 <= j < size ==> ps2Data[j] == LsbFirst(dat[j]))
        && (forall j :: size <= j < FrameBufferSize ==> ps2Data[j] == old(ps2Data[j]))
        && |levels| == size && (forall j :: 0 <= j < size ==> |levels[j]| == 8)
        && (forall j, i :: 0 <= j < size && 0 <= i < 8 ==>
              (levels[j][i] <==> BitSet(command[j], i as bv8)))
    {
      levels := [];
      if size > FrameBufferSize {
        return;
      }
      var j := 0;
      while j < size
        invariant 0 <= j <= size && |levels| == j
        invariant forall k :: 0 <= k < j ==> ps2Data[k] == LsbFirst(dat[k])
        invariant forall k :: j <= k < FrameBufferSize ==> ps2Data[k] == old(ps2Data[k])
        invariant forall k :: 0 <= k < j ==> |levels[k]| == 8
        invariant forall k, i :: 0 <= k < j && 0 <= i < 8 ==>
          (levels[k][i] <==> BitSet(command[k], i as bv8))
      {
        var data, cmd := ExchangeByte(command[j], dat[j]);
        ps2Data[j] := data;
        levels := levels + [cmd];
        j := j + 1;
      }
    }

    /**
     * `psx_read`: sends the read command, reports byte 1 of the answer as
     * the pad id, and updates the pad state from the frame.
     */
    method Read(dat: seq<seq<bool>>) returns (padId: bv8)
      requires Valid() && |dat| == |ReadDataCommand|
      requires forall j :: 0 <= j < |dat| ==> |dat[j]| == 8
      modifies ps2Data, this`padState
      ensures forall j :: 0 <= j < |ReadDataCommand| ==> ps2Data[j] == LsbFirst(dat[j])
      ensures forall j :: |ReadDataCommand| <= j < FrameBufferSize ==> ps2Data[j] == old(ps2Data[j])
      ensures padId == ps2Data[1]
      ensures padState == DecodeFrame(old(padState), ps2Data[..])
    {
      var _ := Command(ReadDataCommand, |ReadDataCommand|, dat);
      padId := ps2Data[1];
      DecodeBuffer();
    }

    /**
     * The decoding half of `psx_read`: with a known pad ID and the 0x5A
     * marker, the buttons (active low) and, for an analog pad, the four
     * axes are taken from the buffer; otherwise the state stays.
     */
    method DecodeBuffer()
      requires Valid()
      modifies this`padState
      ensures padState == DecodeFrame(old(padState), ps2Data[..])
    {
      var id := ps2Data[1];
      if KnownId(id) {
        if ps2Data[2] == 0x5A {
          var b3 := ps2Data[3];
          var b4 := ps2Data[4];
          padState := padState.(
            select := !BitSet(b3, 0), start := !BitSet(b3, 3),
            up := !BitSet(b3, 4), down := !BitSet(b3, 6), left := !BitSet(b3, 7),
            right := !BitSet(b3, 5));
          if id == IdAnalogRed {
            padState := padState.(l3 := !BitSet(b3, 1), r3 := !BitSet(b3, 2));
          }
          padState := padState.(
            l2 := !BitSet(b4, 0), r2 := !BitSet(b4, 1), l1 := !BitSet(b4, 2), r1 := !BitSet(b4, 3),
            triangle := !BitSet(b4, 4), circle := !BitSet(b4, 5), cross := !BitSet(b4, 6),
            square := !BitSet(b4, 7));
          if id == IdAnalogRed || id == IdAnalogGreen {
            padState := padState.(rx := ps2Data[5], ry := ps2Data[6], lx := ps2Data[7], ly := ps2Data[8]);
          } else {
            padState := padState.(lx := 0x80, ly := 0x80, rx := 0x80, ry := 0x80);
          }
        }
      }
    }

    /** `psx_init`: a zeroed buffer, nothing pressed, all axes at 0x80. */
    method Init()
      requires Valid()
      modifies ps2Data, this`padState
      ensures forall j :: 0 <= j < FrameBufferSize ==> ps2Data[j] == 0
      ensures padState == InitialPadState
    {
      forall j | 0 <= j < FrameBufferSize {
        ps2Data[j] := 0;
      }
      padState := InitialPadState.(lx := 0, ly := 0, rx := 0, ry := 0);
      padState := padState.(lx := 0x80, ly := 0x80, rx := 0x80, ry := 0x80);
    }
  }
}
