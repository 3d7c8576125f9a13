/**
 * The adapter's decode logic (wra.cpp): which pad loop runs, and how each
 * loop turns what its pad reader returns into the Classic Controller
 * button state handed to the report encoder.
 *
 * The sketch keeps the button and axis values in globals that every loop
 * iteration overwrites; a loop leaves the globals it does not assign at
 * their start-up values.  A `Globals` value is that set of variables, and
 * each `...Step` function is one loop iteration.  Values a loop computes
 * once before its `for (;;)` (stick centres, the N64 L/Z swap) are
 * parameters of its step.  Words returned by readers are AVR `int`s, 16
 * bits wide (`bv16`); GameCube and N64 readers return byte buffers.
 */
module Adapter {
  import opened Report
  import opened BusEngine
  import NesPad

  // ---------------------------------------------------------------------
  // Pad detection and dispatch
  // ---------------------------------------------------------------------

  const PadGenesis := 0x7
  const PadNes := 0x6
  const PadSnes := 0x5
  const PadPs2 := 0x4
  const PadGc := 0x3
  const PadN64 := 0x2
  const PadNeoGeo := 0x1
  const PadWiiCc := 0x0
  const PadSaturn := 0xF
  const PadDfuDongle := 0xE
  const PadDoNotUse := 0xC

  /** A pin level as `digitalRead` returns it. */
  function Level(high: bool): int
  {
    if high then 1 else 0
  }

  /**
   * `detectPad` over the levels of the four detection pins (p0 is DB9
   * pin 4): the three low bits are pins 1..3, and bit 3 is set when pin 4
   * is low, except for a PS2 cable, whose clock line is pin 4.
   */
  function DetectPad(p0: bool, p1: bool, p2: bool, p3: bool): (code: int)
    ensures 0 <= code < 16 && code != PadDoNotUse
    ensures code % 8 == 4 * Level(p1) + 2 * Level(p2) + Level(p3)
    ensures code >= 8 <==> !p0 && code % 8 != PadPs2
  {
    var low := 4 * Level(p1) + 2 * Level(p2) + Level(p3);
    if low != PadPs2 then low + 8 * Level(!p0) else low
  }

  /** The loops `loop` can start. */
  datatype PadLoop =
    | GenesisLoop | NesLoop | SnesLoop | Ps2Loop | GcLoop | N64Loop | NeoGeoLoop | SaturnLoop
      /** `unsupported_pad`: spins forever, the report stays as `init` left it. */
    | UnsupportedLoop

  /** The `switch` in `loop`: every code without a case of its own runs the Genesis loop. */
  function SelectLoop(code: int): PadLoop
  {
    if code == PadNes then NesLoop
    else if code == PadSnes then SnesLoop
    else if code == PadPs2 then Ps2Loop
    else if code == PadGc then GcLoop
    else if code == PadN64 then N64Loop
    else if code == PadNeoGeo then NeoGeoLoop
    else if code == PadSaturn then SaturnLoop
    else if code == PadWiiCc then UnsupportedLoop
    else GenesisLoop
  }

  /**
   * What the detection pins select.  A PS2 cable is recognised from pins
   * 1..3 alone; the Saturn needs pin 4 low as well; with pin 4 low every
   * other cable, the reserved DFU dongle code included, runs the Genesis
   * loop; with pin 4 high the three low bits pick the loop.
   */
  lemma LoopFromPins(p0: bool, p1: bool, p2: bool, p3: bool)
    ensures var lp := SelectLoop(DetectPad(p0, p1, p2, p3));
      && (lp == Ps2Loop <==> p1 && !p2 && !p3)
      && (lp == SaturnLoop <==> !p0 && p1 && p2 && p3)
      && (!p0 && !(p1 && !p2 && !p3) && !(p1 && p2 && p3) ==> lp == GenesisLoop)
      && (p0 ==> lp == SelectLoop(4 * Level(p1) + 2 * Level(p2) + Level(p3)))
  {
    var code := DetectPad(p0, p1, p2, p3);
    var low := 4 * Level(p1) + 2 * Level(p2) + Level(p3);
    assert code == if low != PadPs2 then low + 8 * Level(!p0) else low;
  }

  /** The DFU dongle code has no loop of its own. */
  lemma DfuDongleRunsGenesis()
    ensures SelectLoop(PadDfuDongle) == GenesisLoop
  {
  }

  // ---------------------------------------------------------------------
  // The sketch's globals
  // ---------------------------------------------------------------------

  /** bdl..bzr, lx..ry (as a button state) and the trigger values lt, rt. */
  datatype Globals = Globals(s: ButtonState, lt: int, rt: int)

  /**
   * The globals at start-up: nothing pressed, sticks at the centres read
   * from the default calibration bytes, triggers 0.
   */
  const StartGlobals: Globals := Globals(InitialButtons(DefaultCalibration), 0, 0)

  /** The four stick centres, in report units. */
  datatype Centres = Centres(lx: bv8, ly: bv8, rx: bv8, ry: bv8)

  /** The centres the loops read with `get_calibration_byte` (2, 5, 8, 11). */
  function CalibrationCentres(cal: seq<bv8>): (c: Centres)
    requires |cal| == 16
    ensures c.lx == InitialButtons(cal).lx && c.ly == InitialButtons(cal).ly
    ensures c.rx == InitialButtons(cal).rx && c.ry == InitialButtons(cal).ry
  {
    Centres(cal[2] >> 2, cal[5] >> 2, cal[8] >> 3, cal[11] >> 3)
  }

  /** The four stick values of a button state. */
  function Sticks(s: ButtonState): (bv8, bv8, bv8, bv8)
  {
    (s.lx, s.ly, s.rx, s.ry)
  }

  /** A button tested with `button_data & mask`: pressed when the result is non-zero. */
  predicate Has(word: bv16, mask: bv16)
  {
    word & mask != 0
  }

  predicate HasByte(b: bv8, mask: bv8)
  {
    b & mask != 0
  }

  // ---------------------------------------------------------------------
  // Digital pads: Genesis, NES, SNES, Neo-Geo, Saturn
  // ---------------------------------------------------------------------

  const GenesisUp: bv16 := 0x01
  const GenesisDown: bv16 := 0x02
  const GenesisLeft: bv16 := 0x04
  const GenesisRight: bv16 := 0x08
  const GenesisA: bv16 := 0x40
  const GenesisB: bv16 := 0x10
  const GenesisC: bv16 := 0x20
  const GenesisX: bv16 := 0x400
  const GenesisY: bv16 := 0x200
  const GenesisZ: bv16 := 0x100
  const GenesisStart: bv16 := 0x80
  const GenesisMode: bv16 := 0x800

  /** One `genesis_loop` iteration: C is A, A is Y, the upper row is X/L/R, UP+START is HOME. */
  function GenesisStep(g: Globals, w: bv16): (r: Globals)
    ensures r.s.home <==> r.s.up && r.s.plus
    ensures Sticks(r.s) == Sticks(g.s) && r.s.zl == g.s.zl && r.s.zr == g.s.zr
    ensures r.lt == g.lt && r.rt == g.rt
  {
    var up := Has(w, GenesisUp);
    var start := Has(w, GenesisStart);
    g.(s := g.s.(
      left := Has(w, GenesisLeft), right := Has(w, GenesisRight), up := up,
      down := Has(w, GenesisDown), a := Has(w, GenesisC), b := Has(w, GenesisB),
      x := Has(w, GenesisY), y := Has(w, GenesisA), l := Has(w, GenesisX), r := Has(w, GenesisZ),
      minus := Has(w, GenesisMode), plus := start, home := up && start))
  }

  /** One `nes_loop` iteration on the word `NESPad::read(8)` returned; SELECT+START is HOME. */
  function NesStep(g: Globals, w: bv16): (r: Globals)
    ensures r.s.home <==> r.s.minus && r.s.plus
    ensures Sticks(r.s) == Sticks(g.s) && r.lt == g.lt && r.rt == g.rt
    ensures r.s.x == g.s.x && r.s.y == g.s.y && r.s.l == g.s.l && r.s.r == g.s.r
    ensures r.s.zl == g.s.zl && r.s.zr == g.s.zr
  {
    var select := Has(w, 4);
    var start := Has(w, 8);
    g.(s := g.s.(
      left := Has(w, 64), right := Has(w, 128), up := Has(w, 16), down := Has(w, 32),
      a := Has(w, 1), b := Has(w, 2), minus := select, plus := start, home := select && start))
  }

  /** One `snes_loop` iteration on the word `NESPad::read(16)` returned. */
  function SnesStep(g: Globals, w: bv16): (r: Globals)
    ensures r.s.home <==> r.s.minus && r.s.plus
    ensures Sticks(r.s) == Sticks(g.s) && r.lt == g.lt && r.rt == g.rt
    ensures r.s.zl == g.s.zl && r.s.zr == g.s.zr
  {
    var select := Has(w, 4);
    var start := Has(w, 8);
    g.(s := g.s.(
      left := Has(w, 64), right := Has(w, 128), up := Has(w, 16), down := Has(w, 32),
      b := Has(w, 1), y := Has(w, 2), minus := select, plus := start,
      a := Has(w, 256), x := Has(w, 512), l := Has(w, 1024), r := Has(w, 2048),
      home := select && start))
  }

  /** One `neogeo_loop` iteration on the word `NESPad::read(16)` returned. */
  function NeoGeoStep(g: Globals, w: bv16): (r: Globals)
    ensures r.s.home <==> r.s.minus && r.s.plus
    ensures Sticks(r.s) == Sticks(g.s) && r.lt == g.lt && r.rt == g.rt
    ensures r.s.l == g.s.l && r.s.r == g.s.r && r.s.zl == g.s.zl && r.s.zr == g.s.zr
  {
    var select := Has(w, 0x100);
    var start := Has(w, 0x4000);
    g.(s := g.s.(
      left := Has(w, 0x02), right := Has(w, 0x800), up := Has(w, 0x04), down := Has(w, 0x1000),
      b := Has(w, 0x01), y := Has(w, 0x8000), minus := select, plus := start,
      a := Has(w, 0x400), x := Has(w, 0x200), home := select && start))
  }

  /**
   * `NESPad::read(16)` as written returns one byte, so the SNES loop never
   * sees A, X, L or R (masks 256..2048), whatever the pad sends.
   */
  lemma SnesUpperButtonsLost(g: Globals, samples: seq<bool>)
    requires |samples| >= 16
    ensures var s := SnesStep(g, NesPad.PadByte(NesPad.Word(samples, 16)) as bv16).s;
      !s.a && !s.x && !s.l && !s.r
  {
    ByteWordHasNoHighBits(NesPad.PadByte(NesPad.Word(samples, 16)));
  }

  /**
   * The same truncation under the Neo-Geo loop: Select, Start and so HOME,
   * A, X, Y, Right and Down are never reported.
   */
  lemma NeoGeoUpperButtonsLost(g: Globals, samples: seq<bool>)
    requires |samples| >= 16
    ensures var s := NeoGeoStep(g, NesPad.PadByte(NesPad.Word(samples, 16)) as bv16).s;
      !s.minus && !s.plus && !s.home && !s.a && !s.x && !s.y && !s.right && !s.down
  {
    ByteWordHasNoHighBits(NesPad.PadByte(NesPad.Word(samples, 16)));
  }

  lemma ByteWordHasNoHighBits(b: bv8)
    ensures (b as bv16) & 0xFF00 == 0
  {
  }

  /**
   * With the untruncated read, every SNES button follows its clock pulse:
   * B, Y, Select, Start, Up, Down, Left, Right on pulses 0..7 and A, X, L,
   * R on pulses 8..11, each pressed when its sample is low.
   */
  lemma SnesButtonsFromWideRead(g: Globals, samples: seq<bool>)
    requires |samples| >= 16
    ensures var s := SnesStep(g, NesPad.WideRead(samples, 16)).s;
      && (s.b <==> !samples[0]) && (s.y <==> !samples[1])
      && (s.minus <==> !samples[2]) && (s.plus <==> !samples[3])
      && (s.up <==> !samples[4]) && (s.down <==> !samples[5])
      && (s.left <==> !samples[6]) && (s.right <==> !samples[7])
      && (s.a <==> !samples[8]) && (s.x <==> !samples[9])
      && (s.l <==> !samples[10]) && (s.r <==> !samples[11])
  {
    var w := NesPad.WideRead(samples, 16);
    NesPad.WideReadBits(samples);
    NesPad.ReadIsInvertedSamples(samples, 16);
    LowByteMasks(w);
  }

  /** A mask below 0x100 tests the same bit of a word and of its low byte. */
  lemma LowByteMasks(w: bv16)
    ensures Has(w, 1) <==> BitSet((w & 0xFF) as bv8, 0)
    ensures Has(w, 2) <==> BitSet((w & 0xFF) as bv8, 1)
    ensures Has(w, 4) <==> BitSet((w & 0xFF) as bv8, 2)
    ensures Has(w, 8) <==> BitSet((w & 0xFF) as bv8, 3)
    ensures Has(w, 16) <==> BitSet((w & 0xFF) as bv8, 4)
    ensures Has(w, 32) <==> BitSet((w & 0xFF) as bv8, 5)
    ensures Has(w, 64) <==> BitSet((w & 0xFF) as bv8, 6)
    ensures Has(w, 128) <==> BitSet((w & 0xFF) as bv8, 7)
  {
  }

  // Saturn masks in the bit order `saturn_read` assembles its word in.
  const SaturnZ: bv16 := 0x0001
  const SaturnY: bv16 := 0x0002
  const SaturnX: bv16 := 0x0004
  const SaturnR: bv16 := 0x0008
  const SaturnB: bv16 := 0x0010
  const SaturnC: bv16 := 0x0020
  const SaturnA: bv16 := 0x0040
  const SaturnStart: bv16 := 0x0080
  const SaturnUp: bv16 := 0x0100
  const SaturnDown: bv16 := 0x0200
  const SaturnLeft: bv16 := 0x0400
  const SaturnRight: bv16 := 0x0800
  const SaturnL: bv16 := 0x1000

  /** One `saturn_loop` iteration: the shoulders are ZL/ZR, UP+START is HOME. */
  function SaturnStep(g: Globals, w: bv16): (r: Globals)
    ensures r.s.home <==> r.s.up && r.s.plus
    ensures Sticks(r.s) == Sticks(g.s) && r.lt == g.lt && r.rt == g.rt && r.s.minus == g.s.minus
  {
    var up := Has(w, SaturnUp);
    var start := Has(w, SaturnStart);
    g.(s := g.s.(
      left := Has(w, SaturnLeft), right := Has(w, SaturnRight), up := up,
      down := Has(w, SaturnDown), a := Has(w, SaturnC), b := Has(w, SaturnB),
      x := Has(w, SaturnY), y := Has(w, SaturnA), l := Has(w, SaturnX), r := Has(w, SaturnZ),
      zl := Has(w, SaturnL), zr := Has(w, SaturnR), plus := start, home := up && start))
  }

  /**
   * End to end for the Genesis pad: the report a host decodes shows HOME
   * pressed exactly when the reader's word has UP and START.
   */
  lemma GenesisHomeReported(g: Globals, w: bv16)
    ensures DecodeReport(EncodeReport(GenesisStep(g, w).s)).home
        <==> Has(w, GenesisUp) && Has(w, GenesisStart)
  {
    DecodeEncode(GenesisStep(g, w).s);
  }

  // ---------------------------------------------------------------------
  // Analog sticks
  // ---------------------------------------------------------------------

  const NeutralRadius := 10

  /**
   * The dead zone: a stick value within `radius` of the centre measured at
   * start-up becomes the calibration centre; comparisons are on `int`, so
   * nothing wraps.
   */
  function DeadZone(v: bv8, centre: bv8, radius: int, cal: bv8): (r: bv8)
    ensures -radius <= v as int - centre as int <= radius ==> r == cal
    ensures !(-radius <= v as int - centre as int <= radius) ==> r == v
  {
    if centre as int - radius <= v as int && v as int <= centre as int + radius then cal else v
  }

  /** A value at the centre itself always reads as the calibration centre. */
  lemma DeadZoneAtCentre(centre: bv8, radius: nat, cal: bv8)
    ensures DeadZone(centre, centre, radius, cal) == cal
  {
  }

  /** Whatever the stick, the dead zone gives either the stick value or the calibration centre. */
  lemma DeadZoneChoosesOne(v: bv8, centre: bv8, radius: int, cal: bv8)
    ensures DeadZone(v, centre, radius, cal) in {v, cal}
  {
  }

  // ---------------------------------------------------------------------
  // PlayStation 2 pad
  // ---------------------------------------------------------------------

  /** What `ps2_loop` reads from `PS2Pad` (which is not part of this model). */
  datatype Ps2Input = Ps2Input(
    left: bool, right: bool, up: bool, down: bool,
    square: bool, cross: bool, triangle: bool, circle: bool,
    l1: bool, r1: bool, l2: bool, r2: bool, select: bool, start: bool,
    lx: bv8, ly: bv8, rx: bv8, ry: bv8)

  /** The centres `ps2_loop` measures once, from its first read. */
  function Ps2Centres(first: Ps2Input): Centres
  {
    Centres(first.lx / 4, first.ly / 4, first.rx / 8, first.ry / 8)
  }

  /**
   * One `ps2_loop` iteration: sticks cut to 6 and 5 bits, dead zones of
   * 10 and 5, then both Y axes byte-complemented.
   */
  function Ps2Step(g: Globals, centre: Centres, cal: Centres, i: Ps2Input): (r: Globals)
    ensures r.s.home <==> r.s.minus && r.s.plus
    ensures r.lt == g.lt && r.rt == g.rt
  {
    g.(s := g.s.(
      left := i.left, right := i.right, up := i.up, down := i.down,
      y := i.square, b := i.cross, x := i.triangle, a := i.circle,
      l := i.l1, r := i.r1, zl := i.l2, zr := i.r2,
      minus := i.select, plus := i.start, home := i.select && i.start,
      lx := DeadZone(i.lx >> 2, centre.lx, NeutralRadius, cal.lx),
      ly := !DeadZone(i.ly >> 2, centre.ly, NeutralRadius, cal.ly),
      rx := DeadZone(i.rx >> 3, centre.rx, NeutralRadius / 2, cal.rx),
      ry := !DeadZone(i.ry >> 3, centre.ry, NeutralRadius / 2, cal.ry)))
  }

  /** Complementing a 6-bit value mirrors it within 0..63. */
  lemma ComplementSixBits(y: bv8)
    ensures (!(y >> 2)) & 0x3F == 0x3F - (y >> 2)
  {
  }

  /** Complementing a 5-bit value mirrors it within 0..31. */
  lemma ComplementFiveBits(y: bv8)
    ensures (!(y >> 3)) & 0x1F == 0x1F - (y >> 3)
  {
  }

  /**
   * Outside the dead zones, the host sees the PS2 Y axes mirrored: a stick
   * pushed down (large value) reads low in the report.
   */
  lemma Ps2YAxesMirrored(g: Globals, centre: Centres, cal: Centres, i: Ps2Input)
    requires !(-NeutralRadius <= (i.ly >> 2) as int - centre.ly as int <= NeutralRadius)
    requires !(-(NeutralRadius / 2) <= (i.ry >> 3) as int - centre.ry as int <= NeutralRadius / 2)
    ensures var d := DecodeReport(EncodeReport(Ps2Step(g, centre, cal, i).s));
      d.ly == 0x3F - (i.ly >> 2) && d.ry == 0x1F - (i.ry >> 3)
  {
    var r := Ps2Step(g, centre, cal, i);
    DecodeEncode(r.s);
    ComplementSixBits(i.ly);
    ComplementFiveBits(i.ry);
  }

  // ---------------------------------------------------------------------
  // GameCube pad
  // ---------------------------------------------------------------------

  /** The centres `gc_loop` measures once, from the first 8-byte read. */
  function GcCentres(first: seq<bv8>): Centres
    requires |first| == 8
  {
    Centres(first[2] >> 2, first[3] >> 2, first[4] >> 3, first[5] >> 3)
  }

  /**
   * One `gc_loop` iteration on the 8 bytes `GCPad_read` returned: Z drives
   * both ZL and ZR, UP+START is HOME, dead zones as for the PS2 pad but
   * no axis complemented, and the analog triggers scaled to 0..31.
   */
  function GcStep(g: Globals, centre: Centres, cal: Centres, b: seq<bv8>): (r: Globals)
    requires |b| == 8
    ensures r.s.home <==> r.s.up && r.s.plus
    ensures r.s.zl == r.s.zr && (r.s.zl <==> HasByte(b[1], 0x10))
    ensures r.lt == b[6] as int / 8 && r.rt == b[7] as int / 8
    ensures 0 <= r.lt <= 31 && 0 <= r.rt <= 31
    ensures r.s.minus == g.s.minus
    ensures r.s.lx == DeadZone(b[2] >> 2, centre.lx, NeutralRadius, cal.lx)
    ensures r.s.ly == DeadZone(b[3] >> 2, centre.ly, NeutralRadius, cal.ly)
    ensures r.s.rx == DeadZone(b[4] >> 3, centre.rx, NeutralRadius / 2, cal.rx)
    ensures r.s.ry == DeadZone(b[5] >> 3, centre.ry, NeutralRadius / 2, cal.ry)
  {
    var up := HasByte(b[1], 0x08);
    var start := HasByte(b[0], 0x10);
    var z := HasByte(b[1], 0x10);
    Globals(
      g.s.(
        left := HasByte(b[1], 0x01), right := HasByte(b[1], 0x02), up := up,
        down := HasByte(b[1], 0x04),
        y := HasByte(b[0], 0x08), b := HasByte(b[0], 0x02), x := HasByte(b[0], 0x04),
        a := HasByte(b[0], 0x01), plus := start,
        l := HasByte(b[1], 0x40), r := HasByte(b[1], 0x20), zl := z, zr := z,
        home := up && start,
        lx := DeadZone(b[2] >> 2, centre.lx, NeutralRadius, cal.lx),
        ly := DeadZone(b[3] >> 2, centre.ly, NeutralRadius, cal.ly),
        rx := DeadZone(b[4] >> 3, centre.rx, NeutralRadius / 2, cal.rx),
        ry := DeadZone(b[5] >> 3, centre.ry, NeutralRadius / 2, cal.ry)),
      (b[6] >> 3) as int,
      (b[7] >> 3) as int)
  }

  /** Outside the dead zones, the host sees the GameCube axes as the pad reports them. */
  lemma GcAxesNotMirrored(g: Globals, centre: Centres, cal: Centres, b: seq<bv8>)
    requires |b| == 8
    requires !(-NeutralRadius <= (b[3] >> 2) as int - centre.ly as int <= NeutralRadius)
    requires !(-(NeutralRadius / 2) <= (b[5] >> 3) as int - centre.ry as int <= NeutralRadius / 2)
    ensures var d := DecodeReport(EncodeReport(GcStep(g, centre, cal, b).s));
      d.ly == b[3] >> 2 && d.ry == b[5] >> 3
  {
    DecodeEncode(GcStep(g, centre, cal, b).s);
    SixBitsFit(b[3]);
    FiveBitsFit(b[5]);
  }

  lemma SixBitsFit(y: bv8)
    ensures (y >> 2) & 0x3F == y >> 2
  {
  }

  lemma FiveBitsFit(y: bv8)
    ensures (y >> 3) & 0x1F == y >> 3
  {
  }

  // ---------------------------------------------------------------------
  // Nintendo 64 pad
  // ---------------------------------------------------------------------

  /**
   * An N64 stick byte (two's complement, centre 0) moved to 0..255 with
   * the centre at 128, then cut to 6 bits.
   */
  function N64Axis(b: bv8): (r: int)
    ensures 0 <= r < 64
    ensures r == ((if b as int >= 128 then b as int - 256 else b as int) + 128) / 4
  {
    (if b as int >= 128 then b as int - 128 else b as int + 128) / 4
  }

  /** The right-stick Y value the C buttons give: C-Up wins over C-Down, else the centre. */
  function CStickY(b1: bv8, cry: bv8): (ry: bv8)
    ensures HasByte(b1, 0x08) ==> ry == 30
    ensures !HasByte(b1, 0x08) && HasByte(b1, 0x04) ==> ry == 1
    ensures !HasByte(b1, 0x08) && !HasByte(b1, 0x04) ==> ry == cry
  {
    if HasByte(b1, 0x08) then 30 else if HasByte(b1, 0x04) then 1 else cry
  }

  /** The right-stick X value the C buttons give: C-Left wins over C-Right, else the centre. */
  function CStickX(b1: bv8, crx: bv8): (rx: bv8)
    ensures HasByte(b1, 0x02) ==> rx == 1
    ensures !HasByte(b1, 0x02) && HasByte(b1, 0x01) ==> rx == 30
    ensures !HasByte(b1, 0x02) && !HasByte(b1, 0x01) ==> rx == crx
  {
    if HasByte(b1, 0x02) then 1 else if HasByte(b1, 0x01) then 30 else crx
  }

  /** What `n64_loop` fixes from its first read: the left-stick centres and the L/Z swap. */
  datatype N64Setup = N64Setup(lx: int, ly: int, swapLZ: bool)

  function N64Start(first: seq<bv8>): (st: N64Setup)
    requires |first| >= 4
    ensures 0 <= st.lx < 64 && 0 <= st.ly < 64
    ensures st.swapLZ <==> HasByte(first[1], 0x20)
  {
    N64Setup(N64Axis(first[2]), N64Axis(first[3]), HasByte(first[1], 0x20))
  }

  /**
   * One `n64_loop` iteration on the bytes `N64Pad_read` returned: C
   * buttons drive the right stick and Y/X, L and Z trade places when the
   * pad was plugged in with L held, UP+START is HOME, the left stick gets
   * the dead zone of radius 10.
   */
  function N64Step(g: Globals, st: N64Setup, cal: Centres, b: seq<bv8>): (r: Globals)
    requires |b| >= 4
    ensures r.s.home <==> r.s.up && r.s.plus
    ensures r.s.zl == r.s.zr
    ensures !st.swapLZ ==> (r.s.l <==> HasByte(b[1], 0x20)) && (r.s.zl <==> HasByte(b[0], 0x20))
    ensures st.swapLZ ==> (r.s.l <==> HasByte(b[0], 0x20)) && (r.s.zl <==> HasByte(b[1], 0x20))
    ensures r.s.y <==> HasByte(b[1], 0x02)
    ensures r.s.x <==> HasByte(b[1], 0x01)
    ensures r.s.minus == g.s.minus && r.lt == g.lt && r.rt == g.rt
  {
    var up := HasByte(b[0], 0x08);
    var start := HasByte(b[0], 0x10);
    var lBit := HasByte(b[1], 0x20);
    var zBit := HasByte(b[0], 0x20);
    g.(s := g.s.(
      left := HasByte(b[0], 0x02), right := HasByte(b[0], 0x01), up := up,
      down := HasByte(b[0], 0x04),
      b := HasByte(b[0], 0x40), a := HasByte(b[0], 0x80), plus := start,
      r := HasByte(b[1], 0x10),
      l := if st.swapLZ then zBit else lBit,
      zl := if st.swapLZ then lBit else zBit,
      zr := if st.swapLZ then lBit else zBit,
      home := up && start,
      ry := CStickY(b[1], cal.ry), rx := CStickX(b[1], cal.rx),
      y := HasByte(b[1], 0x02), x := HasByte(b[1], 0x01),
      lx := N64DeadZone(N64Axis(b[2]), st.lx, cal.lx),
      ly := N64DeadZone(N64Axis(b[3]), st.ly, cal.ly)))
  }

  /** The left-stick dead zone of `n64_loop`, on values already cut to 0..63. */
  function N64DeadZone(v: int, centre: int, cal: bv8): (r: bv8)
    requires 0 <= v < 64
    ensures -NeutralRadius <= v - centre <= NeutralRadius ==> r == cal
    ensures !(-NeutralRadius <= v - centre <= NeutralRadius) ==> r as int == v
  {
    if centre - NeutralRadius <= v <= centre + NeutralRadius then cal else v as bv8
  }

  /** The stick bytes the N64 loop puts in the report fit in the report's 6 and 5 bits. */
  lemma N64SticksFitReport(g: Globals, st: N64Setup, cal: Centres, b: seq<bv8>)
    requires |b| >= 4 && cal.lx < 64 && cal.ly < 64 && cal.rx < 32 && cal.ry < 32
    ensures var r := N64Step(g, st, cal, b);
      r.s.lx < 64 && r.s.ly < 64 && r.s.rx < 32 && r.s.ry < 32
  {
  }

  // ---------------------------------------------------------------------
  // The loops
  // ---------------------------------------------------------------------

  /** The globals after running `step` on each reading in turn. */
  function Run<R>(step: (Globals, R) -> Globals, g: Globals, readings: seq<R>): Globals
    decreases |readings|
  {
    if readings == [] then g
    else step(Run(step, g, readings[..|readings| - 1]), readings[|readings| - 1])
  }

  /**
   * A pad loop over a finite prefix of its readings: each iteration
   * decodes one reading into the globals and encodes them as the report,
   * as `set_button_data` does.  `reports[i]` is the report after reading i.
   */
  method RunLoop<R>(step: (Globals, R) -> Globals, g0: Globals, readings: seq<R>)
    returns (g: Globals, reports: seq<seq<bv8>>)
    ensures g == Run(step, g0, readings)
    ensures |reports| == |readings|
    ensures forall i :: 0 <= i < |readings| ==> reports[i] == EncodeReport(Run(step, g0, readings[..i + 1]).s)
  {
    g := g0;
    reports := [];
    var i := 0;
    while i < |readings|
      invariant 0 <= i <= |readings|
      invariant g == Run(step, g0, readings[..i])
      invariant |reports| == i
      invariant forall k :: 0 <= k < i ==> reports[k] == EncodeReport(Run(step, g0, readings[..k + 1]).s)
    {
      assert readings[..i + 1][..i] == readings[..i];
      g := step(g, readings[i]);
      reports := reports + [EncodeReport(g.s)];
      i := i + 1;
    }
    assert readings[..i] == readings;
  }

  /**
   * Under the NES loop, the buttons the NES pad lacks (X, Y, L, R, ZL,
   * ZR) are never pressed and the sticks stay at their start-up centres.
   */
  lemma {:induction false} NesLeavesRestIdle(ws: seq<bv16>)
    ensures var s := Run(NesStep, StartGlobals, ws).s;
      && !s.x && !s.y && !s.l && !s.r && !s.zl && !s.zr
      && Sticks(s) == Sticks(StartGlobals.s)
  {
    if ws != [] {
      NesLeavesRestIdle(ws[..|ws| - 1]);
    }
  }

  /** Under any digital-pad loop the report's sticks stay centred: 31, 31, 15, 15. */
  lemma {:induction false} DigitalPadsKeepSticksCentred(ws: seq<bv16>)
    ensures Sticks(Run(GenesisStep, StartGlobals, ws).s) == (31, 31, 15, 15)
    ensures Sticks(Run(SnesStep, StartGlobals, ws).s) == (31, 31, 15, 15)
    ensures Sticks(Run(NeoGeoStep, StartGlobals, ws).s) == (31, 31, 15, 15)
    ensures Sticks(Run(SaturnStep, StartGlobals, ws).s) == (31, 31, 15, 15)
  {
    if ws != [] {
      DigitalPadsKeepSticksCentred(ws[..|ws| - 1]);
    }
  }
}
