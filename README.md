# Wii Retro Pad Adapter — a verified model of its core

The Wii Retro Pad Adapter is AVR firmware. It plugs into a Wiimote as a
Classic Controller extension and connects to a retro pad: Genesis, NES,
SNES, PlayStation 2, GameCube, N64, Neo-Geo or Saturn. This project models
the firmware's core in Dafny and proves properties of it:

- **`Cipher`** (`cipher.dfy`): the per-byte masking that the extension
  applies once the Wiimote has set up encryption. The WMCrypt key schedule
  is a parameter: any pair of 8-byte tables.
- **`Report`** (`report.dfy`): the 6-byte Classic Controller report that
  `set_button_data` / `wiimote_write_buffer` build. It holds four axes cut
  to 6 and 5 bits, a zero byte, and two active-low button bytes.
- **`BusEngine`** (`bus_engine.dfy`): the I²C slave register engine that
  WMExtension.cpp and wiimote.h both carry as file statics. It covers:
  - the 256-byte register file and the address selected by a one-byte
    write;
  - the store loop of a data write, with its byte-wrapping cursor, the
    0x55 disable test and the key capture at 0x50;
  - `setup_encryption`;
  - `send_data`;
  - the three read cases of `handle_request`, with the static paging pair;
  - the register image that `init` builds.
- **`WMExtension`** (`wm_extension.dfy`): the `WMExtension` class. It owns
  the report buffer, the calibration bytes and the post-read callback, and
  drives one `Engine`.
- **`Wiimote`** (`wiimote.dfy`): the header-only library. It drives the
  same engine through a current output buffer that the sketch can set byte
  by byte, swap or stream, plus a receive callback.
- **`Adapter`** (`adapter.dfy`): the decode logic of wra.cpp. It covers:
  - `detectPad` and the dispatch in `loop`;
  - one step function per pad loop, which turns a reading into the sketch's
    globals;
  - the analog dead zones, the PS2 Y-axis complement, the GameCube trigger
    scaling, and the N64 stick conversion with its C-button and L/Z rules;
  - a `RunLoop` method that runs a loop over a finite prefix of readings
    and produces the report after each one.
- **`Serial`** (`serial.dfy`): the byte assembly shared by the two
  bit-serial pad readers: eight line levels, sampled least significant bit
  first, make one byte.
- **`Psx`** (`psx.dfy`): the PlayStation byte exchange `psx_command`
  (least significant bit first, over the shared `ps2_data` buffer) and the
  frame decoder `psx_read`.
- **`NesPad` / `SketchNesPad`** (`nes_pad.dfy`): the two copies of
  `NESPad`, the latch-and-clock shift-register reader. The first is the
  library class with configurable pins; the second is the sketch's static
  version.

## Modelling conventions

- Register contents and report bytes are `bv8`.
- Bytes that the source uses as register addresses (`state`, `curr`,
  `last_state`, `offset`) are integers 0..255. Every wrap is written out
  with `% 256`.
- Words that the pad readers return are AVR `int`s, modelled as `bv16`.
- Pin levels, bus bytes and pad readings are inputs.
- The sketch's infinite `for (;;)` loops are modelled over finite prefixes
  of their readings.

## Where the code and its design description differ

The model follows the code in each case:

- **Identification reads are masked.** A read at 0xFA goes through
  `send_data`, so it is masked like any other read when encryption is on.
  The design description calls identification reads unmasked.
- **Re-selecting an address does not reset paging.** The paging pair
  (`last_state`, `offset`) lives in `handle_request` and changes only on
  reads. Re-selecting the same address and reading again therefore
  continues with the next 8-byte window.
  - `last_state` starts at 0xFF. So a first generic read at 0xFF is served
    from offset 8 (`BusEngine.FirstReadAtLastRegisterSkipsAPage`).
- **Several described features are absent from the code.** It has:
  - no 0xAA disable, only 0x55 in a write that starts at 0xF0;
  - no legacy all-zero key;
  - no clamping of windows that run past 0xFF. Such a read is `Overrun`
    in the model; the C code reads past the array.
  - only the 6-byte report layout, with no extended 8-byte mode.
- **The triggers are never encoded.** wra.cpp calls `set_button_data` with
  21 arguments, including the analog values `lt` and `rt`. The definition
  in WMExtension.cpp takes 19, and the report never carries the triggers.
  The model keeps `lt`/`rt` in the globals and the report ignores them.

## Model

| member | source | states |
|---|---|---|
| Cipher.EncryptBlock | src/wii-retropad-adapter/wiimote.h:122-136 | a masked reply has as many bytes as the data it masks |
| Cipher.DecryptEncrypt | src/wii-retropad-adapter/WMExtension.cpp:109-115 | unmasking a byte the extension sent gives back the register value, for any tables |
| Cipher.EncryptDecrypt | src/wii-retropad-adapter/WMExtension.cpp:139-146 | masking a stored (unmasked) byte gives back the byte the host wrote, for any tables |
| Cipher.DecryptBlock | src/wii-retropad-adapter/WMExtension.cpp:105-119 | a host that unmasks a whole reply byte by byte at its addresses recovers every data byte |
| Cipher.SlotIgnoresByteWrap | src/wii-retropad-adapter/wiimote.h:155-158 | the table slot `curr % 8` of the byte cursor equals the slot of the unwrapped address |
| Serial.LsbFirstBits | src/wii-retropad-adapter/psx.cpp:41-61 | bit i of a byte assembled from eight levels is level i |
| Report.EncodeReport | src/wii-retropad-adapter/WMExtension.cpp:206-225 | the report has six bytes and byte 3 is zero |
| Report.ReportSpareBitSet | src/wii-retropad-adapter/WMExtension.cpp:215-217 | bit 0 of byte 4 carries no button and is always 1 |
| Report.ReportAxes | src/wii-retropad-adapter/WMExtension.cpp:210-212 | LX, LY come back at 6 bits, RY at 5 bits, and RX at 5 bits from its three scattered pieces |
| Report.ReportByteFourActiveLow | src/wii-retropad-adapter/WMExtension.cpp:215-223 | in byte 4, Right, Down, L, Minus, Home, Plus and R each read as a 0 bit exactly when pressed |
| Report.ReportByteFiveActiveLow | src/wii-retropad-adapter/WMExtension.cpp:219-224 | in byte 5, ZL, B, Y, A, X, ZR, Left and Up each read as a 0 bit exactly when pressed |
| Report.DecodeEncode | src/wii-retropad-adapter/WMExtension.cpp:206-225 | decoding the report gives back every button and the axes cut to the report's precision |
| Report.WriteReport | src/wii-retropad-adapter/wiimote.h:256-275 | the first six bytes of the buffer become the report for the state; the rest of the buffer is unchanged |
| BusEngine.WriteBytes | src/wii-retropad-adapter/WMExtension.cpp:131-153 | a data write keeps the register file at 256 bytes |
| BusEngine.WriteFrame | src/wii-retropad-adapter/WMExtension.cpp:131-153 | a write of n bytes leaves every register n or more steps past its start unchanged |
| BusEngine.WriteStores | src/wii-retropad-adapter/WMExtension.cpp:139-146 | data byte j of a write of at most 256 bytes lands at (start + j) mod 256, valued against the state the earlier bytes left |
| BusEngine.StoreByteFrame | src/wii-retropad-adapter/WMExtension.cpp:139-146 | storing one byte changes no register but the one under the cursor |
| BusEngine.WriteCryptFlag | src/wii-retropad-adapter/WMExtension.cpp:135-137 | a write turns keys off exactly when it starts at 0xF0 and carries 0x55; nothing in the loop turns them on |
| BusEngine.WriteKeysFlag | src/wii-retropad-adapter/WMExtension.cpp:149-151 | key capture is triggered exactly when the write stores a byte at 0x4F |
| BusEngine.PlainWriteStoresRaw | src/wii-retropad-adapter/WMExtension.cpp:143-146 | without keys, every data byte is stored as written |
| BusEngine.EncryptedWriteStoresDecrypted | src/wii-retropad-adapter/WMExtension.cpp:139-142 | with encryption on and 0xF0 outside the written range, every data byte is stored unmasked |
| BusEngine.HostReadsBackWhatItWrote | src/wii-retropad-adapter/WMExtension.cpp:105-146 | under encryption, a masked read of a register gives the host exactly the byte it wrote there |
| BusEngine.RandFromRegisters | src/wii-retropad-adapter/WMExtension.cpp:88-90 | the random bytes are registers 0x40..0x49 in reverse order |
| BusEngine.KeyFromRegisters | src/wii-retropad-adapter/WMExtension.cpp:92-94 | the key bytes are registers 0x4A..0x4F in reverse order |
| BusEngine.RepeatedReadsPage | src/wii-retropad-adapter/WMExtension.cpp:184-193 | n+1 generic reads in a row at a new address serve pages 0, 8, ..., the last at offset 8n mod 256 |
| BusEngine.FirstReadAtLastRegisterSkipsAPage | src/wii-retropad-adapter/WMExtension.cpp:165-166 | with `last_state` starting at 0xFF, a first read at 0xFF is served from offset 8, and any other first read from offset 0 |
| BusEngine.WithChecksum | src/wii-retropad-adapter/WMExtension.cpp:242-246 | bytes 0..13 are kept; byte 14 is their sum plus 0x55 and byte 15 their sum plus 0xAA |
| BusEngine.InitialCalibrationChecks | src/wii-retropad-adapter/WMExtension.cpp:242-252 | after initialisation both calibration copies carry valid checksums a host can verify |
| BusEngine.InitialCalibrationMirrored | src/wii-retropad-adapter/WMExtension.cpp:249-252 | registers 0x20..0x2F and 0x30..0x3F hold the same 16 calibration bytes |
| BusEngine.Engine.constructor | src/wii-retropad-adapter/WMExtension.cpp:38-41 | zeroed registers, address 0, keys off, `last_state` 0xFF and offset 0 |
| BusEngine.Engine.SetupEncryption | src/wii-retropad-adapter/WMExtension.cpp:85-99 | captures random and key bytes from the registers, builds the tables from them and turns keys on |
| BusEngine.Engine.SendData | src/wii-retropad-adapter/WMExtension.cpp:105-119 | the reply is the masked block when encryption is on, the raw bytes otherwise |
| BusEngine.Engine.ReceiveBytes | src/wii-retropad-adapter/WMExtension.cpp:122-160 | one byte selects an address and changes nothing else; a longer write leaves the registers as the write specification says, and the key state follows whether the cursor reached 0x50 |
| BusEngine.Engine.StoreData | src/wii-retropad-adapter/WMExtension.cpp:131-153 | the loop's registers, key flag and capture flag are those of the write specification |
| BusEngine.Engine.HandleRequest | src/wii-retropad-adapter/WMExtension.cpp:163-195 | at 0x00 the report, at 0xFA the identification bytes, elsewhere the paged 8-byte window or an overrun; masked when encryption is on |
| BusEngine.Engine.LoadInitialRegisters | src/wii-retropad-adapter/WMExtension.cpp:231-259 | the calibration gets its checksums and the registers become the initial register image |
| BusEngine.Engine.FillIdentification | src/wii-retropad-adapter/WMExtension.cpp:234-239 | all registers 0xFF except the identification bytes at 0xFA..0xFF |
| BusEngine.Engine.StoreChecksums | src/wii-retropad-adapter/wiimote.h:293-297 | the calibration array becomes its checksummed form |
| BusEngine.Engine.StoreCalibration | src/wii-retropad-adapter/wiimote.h:300-310 | both calibration copies stored, then 0xF0 := 0x55 and 0xFB := 0x00, giving the initial register image |
| WMExtension.InitialReportCentred | src/wii-retropad-adapter/WMExtension.cpp:255 | with the default calibration the initial report has nothing pressed and sticks at 31, 31, 15, 15 |
| WMExtension.Extension.constructor | src/wii-retropad-adapter/WMExtension.cpp:28-41 | zeroed report, the default calibration, no callback, keys off |
| WMExtension.Extension.SetButtonDataCallback | src/wii-retropad-adapter/WMExtension.cpp:69-71 | the callback becomes present or absent as given |
| WMExtension.Extension.GetCalibrationByte | src/wii-retropad-adapter/WMExtension.cpp:74-79 | byte b of the calibration for b in 0..15, 0 otherwise |
| WMExtension.Extension.SetButtonData | src/wii-retropad-adapter/WMExtension.cpp:206-225 | the report buffer becomes the report for the state |
| WMExtension.Extension.Init | src/wii-retropad-adapter/WMExtension.cpp:231-260 | checksummed calibration, initial register image, centred initial report, and the calibration bytes readable from both register copies |
| WMExtension.Extension.HandleRequest | src/wii-retropad-adapter/WMExtension.cpp:163-195 | only the paging state changes: a read at 0x00 sends the (masked) report and runs the callback exactly when one is set; at 0xFA the identification bytes; elsewhere the paged window or an overrun |
| Wiimote.Library.constructor | src/wii-retropad-adapter/wiimote.h:42-50 | `curbuf` is the zeroed `outbuf`, default calibration, no callbacks |
| Wiimote.Library.SetCallbacks | src/wii-retropad-adapter/wiimote.h:170-172 | the receive and stream callbacks become present or absent as given |
| Wiimote.Library.SetByte | src/wii-retropad-adapter/wiimote.h:225-227 | exactly one byte of the current buffer changes |
| Wiimote.Library.SwapBuffers | src/wii-retropad-adapter/wiimote.h:241-245 | the given buffer becomes current and the previous one is returned |
| Wiimote.Library.HandleRequest | src/wii-retropad-adapter/wiimote.h:182-214 | only the paging state and the current buffer change: a read at 0x00 sends the current buffer's six bytes (masked when on) and then the stream callback picks the next buffer; at 0xFA the identification bytes; elsewhere the paged window or an overrun |
| Wiimote.Library.ReceiveBytes | src/wii-retropad-adapter/wiimote.h:138-180 | a one-byte write selects the address and changes nothing else; a data write stores as the write specification says, captures the keys when the cursor reaches 0x50 and keeps the address; the receive callback is told start and count of a data write |
| Wiimote.Library.Init | src/wii-retropad-adapter/wiimote.h:282-310 | checksummed calibration, initial register image, initial report in the current buffer |
| Adapter.DetectPad | src/wii-retropad-adapter/wra.cpp:93-121 | the low three bits are pins 1..3; bit 3 is set exactly when pin 4 is low and the cable is not PS2 |
| Adapter.LoopFromPins | src/wii-retropad-adapter/wra.cpp:521-552 | which pin patterns select the PS2 loop, the Saturn loop, the Genesis default, and the loops picked by the low bits |
| Adapter.DfuDongleRunsGenesis | src/wii-retropad-adapter/wra.cpp:548-550 | the reserved DFU dongle code falls to the Genesis loop |
| Adapter.CalibrationCentres | src/wii-retropad-adapter/wra.cpp:48-51 | the centres the loops read equal the sticks of the initial report |
| Adapter.GenesisStep | src/wii-retropad-adapter/wra.cpp:129-148 | HOME is UP+START; sticks, ZL/ZR and triggers stay as they were |
| Adapter.GenesisHomeReported | src/wii-retropad-adapter/wra.cpp:134-146 | a host sees HOME exactly when the Genesis word has UP and START |
| Adapter.NesStep | src/wii-retropad-adapter/wra.cpp:157-173 | HOME is SELECT+START; X, Y, L, R, ZL, ZR, sticks and triggers stay as they were |
| Adapter.NesLeavesRestIdle | src/wii-retropad-adapter/wra.cpp:152-174 | over any run of the NES loop from start-up, the buttons the pad lacks are never pressed and the sticks stay centred |
| Adapter.SnesStep | src/wii-retropad-adapter/wra.cpp:182-201 | HOME is SELECT+START; sticks, ZL/ZR and triggers stay as they were |
| Adapter.NeoGeoStep | src/wii-retropad-adapter/wra.cpp:461-478 | HOME is SELECT+START; L, R, ZL, ZR, sticks and triggers stay as they were |
| Adapter.SaturnStep | src/wii-retropad-adapter/wra.cpp:486-509 | HOME is UP+START; Minus, sticks and triggers stay as they were |
| Adapter.DigitalPadsKeepSticksCentred | src/wii-retropad-adapter/wra.cpp:124-510 | under the Genesis, SNES, Neo-Geo and Saturn loops the sticks stay at 31, 31, 15, 15 |
| Adapter.SnesUpperButtonsLost | src/wii-retropad-adapter/wra.cpp:183-196 | with the byte `NESPad::read(16)` returns, A, X, L and R are never pressed |
| Adapter.NeoGeoUpperButtonsLost | src/wii-retropad-adapter/wra.cpp:462-474 | with that byte, Select, Start, HOME, A, X, Y, Right and Down are never pressed |
| Adapter.SnesButtonsFromWideRead | src/wii-retropad-adapter/wra.cpp:183-197 | with an untruncated read every SNES button is pressed exactly when its sample is low |
| Adapter.DeadZone | src/wii-retropad-adapter/wra.cpp:253-268 | within the radius of the measured centre the value becomes the calibration centre, otherwise it is kept |
| Adapter.DeadZoneAtCentre | src/wii-retropad-adapter/wra.cpp:253-255 | a stick at its measured centre reads as the calibration centre |
| Adapter.DeadZoneChoosesOne | src/wii-retropad-adapter/wra.cpp:253-268 | the dead zone only ever yields the stick value or the calibration centre |
| Adapter.Ps2Step | src/wii-retropad-adapter/wra.cpp:224-277 | HOME is SELECT+START; triggers stay as they were |
| Adapter.Ps2YAxesMirrored | src/wii-retropad-adapter/wra.cpp:248-273 | outside the dead zones a host sees both PS2 Y axes mirrored (63 − y, 31 − y) |
| Adapter.GcStep | src/wii-retropad-adapter/wra.cpp:300-352 | HOME is UP+START, Z drives both ZL and ZR, each trigger is its byte divided by 8 (so within 0..31), axes through the dead zones |
| Adapter.GcAxesNotMirrored | src/wii-retropad-adapter/wra.cpp:322-346 | outside the dead zones a host sees the GameCube Y axes as the pad reports them |
| Adapter.N64Axis | src/wii-retropad-adapter/wra.cpp:429-430 | a two's-complement stick byte moved to centre 128, in 0..63 |
| Adapter.CStickY | src/wii-retropad-adapter/wra.cpp:410-416 | C-Up gives 30 and wins over C-Down's 1; neither gives the centre |
| Adapter.CStickX | src/wii-retropad-adapter/wra.cpp:418-424 | C-Left gives 1 and wins over C-Right's 30; neither gives the centre |
| Adapter.N64Start | src/wii-retropad-adapter/wra.cpp:375-383 | centres in 0..63; L and Z swap exactly when L is held at the first read |
| Adapter.N64Step | src/wii-retropad-adapter/wra.cpp:385-446 | HOME is UP+START; ZL equals ZR; L and Z trade places under the swap; Y/X follow C-Left/C-Right |
| Adapter.N64DeadZone | src/wii-retropad-adapter/wra.cpp:432-438 | within radius 10 the calibration centre, otherwise the value itself |
| Adapter.N64SticksFitReport | src/wii-retropad-adapter/wra.cpp:410-443 | every N64 stick value fits the report's 6 and 5 bits |
| Adapter.RunLoop | src/wii-retropad-adapter/wra.cpp:124-510 | after each reading the report is the encoding of the globals that the step sequence has produced |
| Psx.ShiftedIsLsbFirst | src/wii-retropad-adapter/psx.cpp:39-59 | eight shift-right-and-set-bit-7 steps put the samples in least-significant-first order |
| Psx.ExchangeByte | src/wii-retropad-adapter/psx.cpp:39-61 | the byte read has bit i equal to sample i, and CMD carries bit i of the command at step i |
| Psx.EncodeFrame | src/wii-retropad-adapter/psx.h:30-32 | a frame has nine bytes, the id in byte 1 and 0x5A in byte 2 |
| Psx.DecodeEncodeFrame | src/wii-retropad-adapter/psx.cpp:80-119 | decoding a pad's frame gives back its state, except centred axes for a digital pad and L3/R3 only from an analog-red pad |
| Psx.DecodedByteThree | src/wii-retropad-adapter/psx.cpp:85-96 | directions, Select, Start, L3 and R3 come back from byte 3 |
| Psx.DecodedByteFour | src/wii-retropad-adapter/psx.cpp:98-105 | shape and shoulder buttons come back from byte 4 |
| Psx.RejectedFrameKeepsState | src/wii-retropad-adapter/psx.cpp:80-83 | an unknown id or a missing 0x5A leaves the pad state unchanged |
| Psx.PsxPort.constructor | src/wii-retropad-adapter/psx.cpp:23-25 | zeroed buffer and all-zero state |
| Psx.PsxPort.Command | src/wii-retropad-adapter/psx.cpp:28-66 | sizes over 22 change nothing; otherwise byte j of the buffer is the byte sampled for j, the rest unchanged |
| Psx.PsxPort.Read | src/wii-retropad-adapter/psx.cpp:68-124 | bytes 0..8 of the buffer hold the sampled frame and bytes 9..21 are untouched, the id is byte 1, and the state is the frame decoded over the previous state |
| Psx.PsxPort.DecodeBuffer | src/wii-retropad-adapter/psx.cpp:76-119 | the new pad state is the buffer decoded over the previous state |
| Psx.ShiftStep | src/wii-retropad-adapter/psx.cpp:50-58 | one inner-loop step (shift right, set bit 7 on a high sample) is one step of the shifted byte |
| Psx.PsxPort.Init | src/wii-retropad-adapter/psx.cpp:126-145 | zeroed buffer, nothing pressed, axes at 0x80 |
| NesPad.Sampled | src/wii-retropad-adapter/NESPad.cpp:57-65 | at least one sample is taken, and exactly `bits` when bits ≥ 1 |
| NesPad.FirstEightSamples | src/wii-retropad-adapter/NESPad.cpp:57-65 | the first eight samples land in bits 0..7 in order |
| NesPad.LowByteSettles | src/wii-retropad-adapter/NESPad.cpp:59-65 | clock pulses past the eighth never change the low byte |
| NesPad.ReadIsInvertedSamples | src/wii-retropad-adapter/NESPad.cpp:57-69 | with 8..16 samples the result is the first eight samples inverted: bit i set exactly when sample i is low |
| NesPad.UpperSamplesIgnored | src/wii-retropad-adapter/NESPad.cpp:67-69 | with 8..16 samples the result does not depend on samples 8 and on |
| NesPad.NothingPressedReadsZero | src/wii-retropad-adapter/NESPad.cpp:57-69 | with all samples high the result is 0 |
| NesPad.WideReadBits | src/wii-retropad-adapter/NESPad.cpp:57-69 | the untruncated read keeps the byte `read` returns in its low half and has bit i set exactly when sample i is low, for i = 8..15 |
| NesPad.ShiftIn | src/wii-retropad-adapter/NESPad.cpp:57-65 | the word is the OR of sample i shifted to bit i over the samples taken |
| NesPad.Reader.Default | src/wii-retropad-adapter/NESPad.cpp:24-26 | every pin −1 and the state cleared |
| NesPad.Reader.constructor | src/wii-retropad-adapter/NESPad.cpp:28-30 | the three pins as given and the state cleared |
| NesPad.Reader.Setup | src/wii-retropad-adapter/NESPad.cpp:32-42 | the three pins as given and the state cleared |
| NesPad.Reader.Read | src/wii-retropad-adapter/NESPad.cpp:44-70 | a negative data pin gives 0 and no change; otherwise the complemented low byte of the word, kept in `nespadstate`, in 0..255 |
| SketchNesPad.Read | src/arduino-sketch/wra/NESPad.cpp:29-53 | the complemented low byte of the shift-register word, in 0..255 |

## Left out

- I²C transport (`Wire`, `Wire.begin`, the `onReceive`/`onRequest` hooks): bus writes and reads are method calls with their bytes as parameters.
- WMCrypt's key schedule (`wm_gentabs`, its S-boxes and answer tables): the tables are the result of an arbitrary function of the captured bytes, so every masking property holds for any key schedule.
- Interrupt concurrency between the bus handlers and the pad loops, and all delays and timing (`delayMicroseconds`, clock edges): the model is sequential.
- Pin configuration and levels (`pinMode`, `digitalWrite`, `digitalRead` and the fast variants): sampled levels are parameters, and pins are recorded but not driven.
- The pad readers `PS2Pad`, `GCPad_read`, `N64Pad_read`, `genesis_read`, `saturn_read` and `tg16`: their results are the inputs of the step functions. saturn.h and the PS2Pad library are not part of this model.
- `ps2_loop`'s `while (PS2Pad::init(false))` wait and each loop's `..._init` call: pad initialisation is I/O.
- The `for (;;)` pad loops and `unsupported_pad` never end: `RunLoop` covers any finite prefix of readings.
- `Wiimote.Library.SwapBuffers`: the buffer must not be one of the library's own arrays. Aliasing a register array or the calibration buffer as a report buffer is excluded.
- `WMExtension.Extension.HandleRequest`: the callback is not run, only recorded. Its effect is whatever the sketch does, normally a `set_button_data`.
- `Adapter.SaturnStep`: the `SATURN_*` mask values are reconstructed. saturn.h, which defines them, is not part of this model; the masks are taken from the bit order in which `saturn_read` (saturn.cpp) assembles its word.
- `Adapter.Ps2Step`: states HOME and the triggers only. Its axes are stated through `Adapter.Ps2YAxesMirrored`, and only outside the dead zones.
- `NesPad.ReadIsInvertedSamples`, `NesPad.UpperSamplesIgnored`, `NesPad.NothingPressedReadsZero`: stated for 8 to 16 samples, the widths the NES (8) and SNES/Neo-Geo (16) loops use.
- `NesPad.Reader.Read` and `SketchNesPad.Read` require `bits <= 16`: a shift by 16 or more is undefined for a 16-bit AVR `int`.
- `NesPad.Reader.Read` requires enough samples only when the data pin is non-negative; with a negative pin nothing is sampled.

## Findings

| source | as written | input that shows it | evidently intended | confidence | as-written member | corrected member |
|---|---|---|---|---|---|---|
| src/wii-retropad-adapter/NESPad.cpp:67-69 (and src/arduino-sketch/wra/NESPad.cpp:50-52), used by src/wii-retropad-adapter/wra.cpp:183-196 and 462-474 | `~state` is stored in an unsigned char, so `read(16)` returns only the low byte; the SNES masks 256..2048 (A, X, L, R) and the Neo-Geo masks 0x100..0x8000 (Select, Start, A, X, Y, Right, Down) never match | an SNES pad with A held: sample 8 low, all others high; `read(16)` returns 0 and the SNES loop reports A released | `read(16)` returns the whole complemented 16-bit word, so every button of a 12- or 16-button pad reaches the loop | not executed | SketchNesPad.Read, NesPad.Reader.Read, Adapter.SnesUpperButtonsLost, Adapter.NeoGeoUpperButtonsLost | NesPad.WideRead, NesPad.WideReadBits, Adapter.SnesButtonsFromWideRead |
