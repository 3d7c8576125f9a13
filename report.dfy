/**
 * The 6-byte Classic Controller report (`set_button_data` in
 * WMExtension.cpp, `wiimote_write_buffer` in wiimote.h), laid out as the
 * WiiBrew Classic Controller page describes: the low bits of the four
 * axes packed into bytes 0..2, byte 3 zero, and two button bytes in which
 * a pressed button is a 0 bit.
 */
module Report {

  /**
   * The arguments of `set_button_data`.  The source passes each button as
   * an `int` and only ever tests it with `? 1 : 0`, so a button is its
   * truth value here.  Field names follow the Classic Controller.
   */
  datatype ButtonState = ButtonState(
    left: bool, right: bool, up: bool, down: bool,
    a: bool, b: bool, x: bool, y: bool,
    l: bool, r: bool, minus: bool, plus: bool, home: bool,
    lx: bv8, ly: bv8, rx: bv8, ry: bv8,
    zl: bool, zr: bool)

  /** A flag as the bit `(flag ? 1 : 0) << n`. */
  function Flag(flag: bool, n: bv8): bv8
    requires n < 8
  {
    if flag then (1 as bv8) << n else 0
  }

  /** True when bit `n` of `v` is set. */
  predicate BitSet(v: bv8, n: bv8)
    requires n < 8
  {
    v & ((1 as bv8) << n) != 0
  }

  /** The 5-bit right-stick X value, scattered over the top bits of bytes 0..2. */
  function RightX(r: seq<bv8>): bv8
    requires |r| >= 3
  {
    ((r[0] >> 6) << 3) | ((r[1] >> 6) << 1) | (r[2] >> 7)
  }

  /** Byte 4 of the report, before it is complemented. */
  function PressedHigh(s: ButtonState): bv8
  {
    Flag(s.right, 7) | Flag(s.down, 6) | Flag(s.l, 5) | Flag(s.minus, 4)
      | Flag(s.plus, 2) | Flag(s.r, 1) | Flag(s.home, 3)
  }

  /** Byte 5 of the report, before it is complemented. */
  function PressedLow(s: ButtonState): bv8
  {
    Flag(s.b, 6) | Flag(s.y, 5) | Flag(s.a, 4) | Flag(s.x, 3)
      | Flag(s.left, 1) | Flag(s.up, 0) | Flag(s.zl, 7) | Flag(s.zr, 2)
  }

  /** The report for a button state. */
  function EncodeReport(s: ButtonState): (r: seq<bv8>)
    ensures |r| == 6 && r[3] == 0
  {
    [((s.rx & 0x18) << 3) | (s.lx & 0x3F),
     ((s.rx & 0x06) << 5) | (s.ly & 0x3F),
     ((s.rx & 0x01) << 7) | (s.ry & 0x1F),
     0x00,
     !PressedHigh(s),
     !PressedLow(s)]
  }

  /** Bit 0 of byte 4 is always set: no button lives there. */
  lemma ReportSpareBitSet(s: ButtonState)
    ensures BitSet(EncodeReport(s)[4], 0)
  {
  }

  /** The axes can be read back from bytes 0..2 at 6 and 5 bits. */
  lemma ReportAxes(s: ButtonState)
    ensures var r := EncodeReport(s);
      && r[0] & 0x3F == s.lx & 0x3F && r[1] & 0x3F == s.ly & 0x3F
      && r[2] & 0x1F == s.ry & 0x1F && RightX(r) == s.rx & 0x1F
  {
  }

  /** Byte 4 is active-low: a pressed button reads as a 0 bit. */
  lemma ReportByteFourActiveLow(s: ButtonState)
    ensures var b := EncodeReport(s)[4];
      && (!BitSet(b, 7) <==> s.right)
      && (!BitSet(b, 6) <==> s.down)
      && (!BitSet(b, 5) <==> s.l)
      && (!BitSet(b, 4) <==> s.minus)
      && (!BitSet(b, 3) <==> s.home)
      && (!BitSet(b, 2) <==> s.plus)
      && (!BitSet(b, 1) <==> s.r)
  {
  }

  /** Byte 5 is active-low: a pressed button reads as a 0 bit. */
  lemma ReportByteFiveActiveLow(s: ButtonState)
    ensures var b := EncodeReport(s)[5];
      && (!BitSet(b, 7) <==> s.zl)
      && (!BitSet(b, 6) <==> s.b)
      && (!BitSet(b, 5) <==> s.y)
      && (!BitSet(b, 4) <==> s.a)
      && (!BitSet(b, 3) <==> s.x)
      && (!BitSet(b, 2) <==> s.zr)
      && (!BitSet(b, 1) <==> s.left)
      && (!BitSet(b, 0) <==> s.up)
  {
  }

  /**
   * What a host reads back out of a report: the axes at the precision the
   * report carries and every button.
   */
  function DecodeReport(r: seq<bv8>): ButtonState
    requires |r| >= 6
  {
    ButtonState(
      !BitSet(r[5], 1), !BitSet(r[4], 7), !BitSet(r[5], 0), !BitSet(r[4], 6),
      !BitSet(r[5], 4), !BitSet(r[5], 6), !BitSet(r[5], 3), !BitSet(r[5], 5),
      !BitSet(r[4], 5), !BitSet(r[4], 1), !BitSet(r[4], 4), !BitSet(r[4], 2), !BitSet(r[4], 3),
      r[0] & 0x3F, r[1] & 0x3F, RightX(r), r[2] & 0x1F,
      !BitSet(r[5], 7), !BitSet(r[5], 2))
  }

  /** The part of a button state a report can carry. */
  function Truncated(s: ButtonState): ButtonState
  {
    s.(lx := s.lx & 0x3F, ly := s.ly & 0x3F, rx := s.rx & 0x1F, ry := s.ry & 0x1F)
  }

  /** Decoding a report gives back its state, axes cut to 6 and 5 bits. */
  lemma DecodeEncode(s: ButtonState)
    ensures DecodeReport(EncodeReport(s)) == Truncated(s)
  {
    ReportAxes(s);
    ReportByteFourActiveLow(s);
    ReportByteFiveActiveLow(s);
  }

  /** Nothing pressed, sticks at `lx`, `ly`, `rx`, `ry`. */
  function Idle(lx: bv8, ly: bv8, rx: bv8, ry: bv8): ButtonState
  {
    ButtonState(false, false, false, false, false, false, false, false,
                false, false, false, false, false, lx, ly, rx, ry, false, false)
  }

  /**
   * The state the initial report is built from: no button pressed and
   * each stick at the centre read from calibration bytes 2, 5, 8 and 11
   * (shifted to 6 bits for the left stick, 5 bits for the right one).
   */
  function InitialButtons(cal: seq<bv8>): ButtonState
    requires |cal| == 16
  {
    Idle(cal[2] >> 2, cal[5] >> 2, cal[8] >> 3, cal[11] >> 3)
  }

  /**
   * Writes the report for `s` into the first six bytes of `buffer`, byte
   * by byte, as `wiimote_write_buffer` does (and `set_button_data` with its
   * own buffer).
   */
  method WriteReport(buffer: array<bv8>, s: ButtonState)
    requires buffer.Length >= 6
    modifies buffer
    ensures buffer[..6] == EncodeReport(s)
    ensures buffer[6..] == old(buffer[6..])
  {
    buffer[0] := ((s.rx & 0x18) << 3) | (s.lx & 0x3F);
    buffer[1] := ((s.rx & 0x06) << 5) | (s.ly & 0x3F);
    buffer[2] := ((s.rx & 0x01) << 7) | (s.ry & 0x1F);
    buffer[3] := 0x00;
    buffer[4] := PressedHigh(s);
    buffer[5] := PressedLow(s);
    buffer[4] := !buffer[4];
    buffer[5] := !buffer[5];
  }
}
