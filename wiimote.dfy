/**
 * The header-only Wiimote library of wiimote.h: the same register engine
 * as the `WMExtension` class, fronted by a current output buffer that the
 * sketch can swap or stream, and a callback told about every data write.
 */
module Wiimote {
  import opened Cipher
  import opened Report
  import opened BusEngine

  class Library {
    const engine: Engine
    /** `outbuf`, the library's own output buffer. */
    const outbuf: array<bv8>
    /** `curbuf`, the buffer sent on a read at 0x00. */
    var curbuf: array<bv8>
    /** `calbuf`. */
    const calbuf: array<bv8>
    /** Whether `wiimote_receive` is set. */
    var hasReceive: bool
    /** Whether `wiimote_stream` is set. */
    var hasStream: bool

    /** A buffer the sketch may hand over: six bytes at least, not one of the library's own arrays. */
    predicate OutputBuffer(buffer: array<bv8>)
      reads this, engine
    {
      && buffer.Length >= 6 && buffer != calbuf
      && buffer != engine.registers && buffer != engine.wmRand && buffer != engine.wmKey
    }

    ghost predicate Valid()
      reads this, engine
    {
      && engine.Valid() && outbuf.Length == 6 && calbuf.Length == 16
      && OutputBuffer(outbuf) && OutputBuffer(curbuf)
      && calbuf != engine.registers && calbuf != engine.wmRand && calbuf != engine.wmKey
    }

    /** The statics before `wiimote_init`: `curbuf` is the zeroed `outbuf`, no callbacks. */
    constructor (genTabs: (seq<bv8>, seq<bv8>) -> Tables)
      ensures Valid() && fresh(engine) && fresh(engine.registers)
      ensures fresh(engine.wmRand) && fresh(engine.wmKey)
      ensures fresh(outbuf) && fresh(calbuf)
      ensures curbuf == outbuf && outbuf[..] == [0, 0, 0, 0, 0, 0]
      ensures calbuf[..] == DefaultCalibration
      ensures !hasReceive && !hasStream && engine.state == 0 && !engine.cryptSetupDone
    {
      engine := new Engine(genTabs);
      var out := new bv8[6](_ => 0);
      outbuf := out;
      curbuf := out;
      var cal := new bv8[16](i requires 0 <= i < 16 => DefaultCalibration[i]);
      calbuf := cal;
      hasReceive := false;
      hasStream := false;
      assert cal[..] == DefaultCalibration;
    }

    /** Setting or clearing `wiimote_receive` and `wiimote_stream`. */
    method SetCallbacks(receive: bool, stream: bool)
      modifies this`hasReceive, this`hasStream
      ensures hasReceive == receive && hasStream == stream
    {
      hasReceive := receive;
      hasStream := stream;
    }

    /** `wiimote_set_byte`: one byte of the current buffer. */
    method SetByte(index: int, value: bv8)
      requires Valid() && 0 <= index < 6
      modifies curbuf
      ensures curbuf[..] == old(curbuf[..])[index := value]
    {
      curbuf[index] := value;
    }

    /**
     * `wiimote_swap_buffers`: `buffer` becomes the current buffer and the
     * previous one is handed back for reuse.
     */
    method SwapBuffers(buffer: array<bv8>) returns (previous: array<bv8>)
      requires Valid() && OutputBuffer(buffer)
      modifies this`curbuf
      ensures curbuf == buffer && previous == old(curbuf) && Valid()
    {
      previous := curbuf;
      curbuf := buffer;
    }

    /**
     * `handle_request`: the engine answers the read with the first six
     * bytes of the current buffer at 0x00; after that the stream callback,
     * if set, chooses the next current buffer, given here as `streamed`.
     */
    method HandleRequest(streamed: array<bv8>) returns (reply: Reply)
      requires Valid() && OutputBuffer(streamed)
      modifies engine`lastState, engine`offset, this`curbuf
      ensures Valid()
      ensures engine.state == 0x00 ==>
        && engine.lastState == old(engine.lastState) && engine.offset == old(engine.offset)
        && reply == Sent(if engine.EncryptionOn() then EncryptBlock(old(curbuf[..6]), engine.tables, 0)
                         else old(curbuf[..6]))
      ensures engine.state == 0xFA ==>
        && engine.lastState == old(engine.lastState) && engine.offset == old(engine.offset)
        && reply == Sent(if engine.EncryptionOn() then EncryptBlock(engine.registers[0xFA..], engine.tables, 0xFA)
                         else engine.registers[0xFA..])
      ensures engine.state != 0x00 && engine.state != 0xFA ==>
        var start := engine.state + engine.offset;
        && (engine.lastState, engine.offset) == NextPage(old(engine.lastState), old(engine.offset), engine.state)
        && (start + 8 > 256 ==> reply == Overrun(start))
        && (start + 8 <= 256 ==>
              var window := engine.registers[start .. start + 8];
              reply == Sent(if engine.EncryptionOn() then EncryptBlock(window, engine.tables, start)
                            else window))
      ensures curbuf == if engine.state == 0x00 && hasStream then streamed else old(curbuf)
    {
      reply := engine.HandleRequest(curbuf[..6]);
      if engine.state == 0x00 && hasStream {
        curbuf := streamed;
      }
    }

    /**
     * `receive_bytes`: the engine stores the write; the receive callback,
     * if set, is told the start address and the data count of a data write.
     */
    method ReceiveBytes(bytes: seq<bv8>) returns (notice: WriteNotice)
      requires Valid()
      modifies engine.registers, engine.wmRand, engine.wmKey
      modifies engine`state, engine`cryptSetupDone, engine`tables
      ensures Valid()
      ensures |bytes| == 1 ==> engine.state == bytes[0] as int
      ensures |bytes| != 1 ==> engine.state == old(engine.state)
      ensures |bytes| <= 1 ==>
        && engine.registers[..] == old(engine.registers[..])
        && engine.cryptSetupDone == old(engine.cryptSetupDone) && engine.tables == old(engine.tables)
        && engine.wmRand[..] == old(engine.wmRand[..]) && engine.wmKey[..] == old(engine.wmKey[..])
      ensures |bytes| > 1 ==>
        var w := WriteBytes(WriteState(old(engine.registers[..]), old(engine.cryptSetupDone), false),
                            bytes[0] as int, bytes[1..], old(engine.tables));
        && engine.registers[..] == w.regs
        && (w.keysReceived ==>
              && engine.wmRand[..] == RandFromRegisters(w.regs)
              && engine.wmKey[..] == KeyFromRegisters(w.regs)
              && engine.tables == engine.genTabs(engine.wmRand[..], engine.wmKey[..])
              && engine.cryptSetupDone)
        && (!w.keysReceived ==>
              && engine.cryptSetupDone == w.cryptSetupDone && engine.tables == old(engine.tables)
              && engine.wmRand[..] == old(engine.wmRand[..]) && engine.wmKey[..] == old(engine.wmKey[..]))
      ensures notice == if hasReceive && |bytes| > 1 then Notice(bytes[0] as int, (|bytes| - 1) % 256)
                        else NoNotice
    {
      var n := engine.ReceiveBytes(bytes);
      notice := if hasReceive then n else NoNotice;
    }

    /**
     * `wiimote_init` (without joining the bus): the register image, the
     * checksummed calibration bytes, and the initial report written into
     * the current buffer.
     */
    method Init()
      requires Valid()
      modifies engine.registers, calbuf, curbuf
      ensures calbuf[..] == WithChecksum(old(calbuf[..]))
      ensures engine.registers[..] == InitialRegisters(calbuf[..])
      ensures curbuf[..6] == EncodeReport(InitialButtons(calbuf[..]))
      ensures curbuf[6..] == old(curbuf[6..])
    {
      engine.LoadInitialRegisters(calbuf);
      var c := calbuf[..];
      WriteReport(curbuf, Idle(c[2] >> 2, c[5] >> 2, c[8] >> 3, c[11] >> 3));
    }
  }
}
