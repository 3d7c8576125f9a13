/**
 * The register engine behind the Classic Controller's I2C slave: the
 * 256-byte register file, the selected address, the encryption flag, the
 * paging pair of generic reads and the key capture.  WMExtension.cpp and
 * wiimote.h hold two copies of this logic as file statics; both front
 * ends (modules WMExtension and Wiimote) drive one `Engine`.
 *
 * Bytes the source treats as data are `bv8`.  Bytes the source uses as
 * register addresses (`state`, `curr`, `last_state`, `offset`) are kept as
 * integers 0..255, and every place where the source lets such a byte wrap
 * is written out with `% 256`.
 */
module BusEngine {
  import opened Cipher

  /** A register address or any other byte used to count through registers. */
  type Address = k: int | 0 <= k < 256

  /** The Classic Controller identification bytes stored at 0xFA..0xFF. */
  const Id: seq<bv8> := [0x00, 0x00, 0xA4, 0x20, 0x01, 0x01]

  /** The address of the i-th data byte of a write that starts at `start`. */
  function Cursor(start: Address, i: int): Address
    requires i >= 0
  {
    (start + i) % 256
  }

  // ---------------------------------------------------------------------
  // Bus writes (`receive_bytes`)
  // ---------------------------------------------------------------------

  /** The part of the engine a bus write changes while it stores bytes. */
  datatype WriteState = WriteState(regs: seq<bv8>, cryptSetupDone: bool, keysReceived: bool)

  /** A byte that turns encryption off: 0x55 in a write that starts at 0xF0. */
  predicate DisablesEncryption(start: Address, d: bv8)
  {
    start == 0xF0 && d == 0x55
  }

  /**
   * The value stored for data byte `d` at `at`: unmasked when register
   * 0xF0 holds 0xAA and keys are set up (after the 0x55 check for this very
   * byte), raw otherwise.
   */
  function StoredValue(w: WriteState, start: Address, at: Address, d: bv8, t: Tables): bv8
    requires |w.regs| == 256
  {
    var done := w.cryptSetupDone && !DisablesEncryption(start, d);
    if w.regs[0xF0] == 0xAA && done then Decrypt(d, t, at) else d
  }

  /** One iteration of the store loop of `receive_bytes`. */
  function StoreByte(w: WriteState, start: Address, at: Address, d: bv8, t: Tables): (w': WriteState)
    requires |w.regs| == 256
    ensures |w'.regs| == 256
  {
    WriteState(
      w.regs[at := StoredValue(w, start, at, d, t)],
      w.cryptSetupDone && !DisablesEncryption(start, d),
      w.keysReceived || (at + 1) % 256 == 0x50)
  }

  /** The state after storing the data bytes `ds` of a write starting at `start`. */
  function WriteBytes(w: WriteState, start: Address, ds: seq<bv8>, t: Tables): (w': WriteState)
    requires |w.regs| == 256
    ensures |w'.regs| == 256
    decreases |ds|
  {
    if ds == [] then w
    else
      var n := |ds| - 1;
      StoreByte(WriteBytes(w, start, ds[..n], t), start, Cursor(start, n), ds[n], t)
  }

  /** Writing one more data byte is one more store at the next cursor position. */
  lemma WriteBytesAppend(w: WriteState, start: Address, ds: seq<bv8>, d: bv8, t: Tables)
    requires |w.regs| == 256
    ensures WriteBytes(w, start, ds + [d], t)
         == StoreByte(WriteBytes(w, start, ds, t), start, Cursor(start, |ds|), d, t)
  {
    assert (ds + [d])[..|ds|] == ds;
  }

  /** The store loop's body, field by field, is one `StoreByte`. */
  lemma StoreStep(w: WriteState, start: Address, at: Address, d: bv8, t: Tables,
                  regs: seq<bv8>, done: bool, keys: bool)
    requires |w.regs| == 256
    requires done == (w.cryptSetupDone && !DisablesEncryption(start, d))
    requires regs == w.regs[at := if w.regs[0xF0] == 0xAA && done then Decrypt(d, t, at) else d]
    requires keys == (w.keysReceived || (at + 1) % 256 == 0x50)
    ensures WriteState(regs, done, keys) == StoreByte(w, start, at, d, t)
  {
  }

  /** The cursor advances by one, wrapping after 0xFF. */
  lemma CursorStep(start: Address, i: nat)
    ensures Cursor(start, i + 1) == (Cursor(start, i) + 1) % 256
  {
  }

  /** Fewer than 256 steps apart, two cursor positions differ. */
  lemma CursorsDistinct(start: Address, i: int, j: int)
    requires 0 <= i < j < 256
    ensures Cursor(start, i) != Cursor(start, j)
  {
  }

  /** The i-th cursor position is i steps past the start, counted modulo 256. */
  lemma CursorDistance(start: Address, i: int, k: Address)
    requires 0 <= i < 256
    ensures Cursor(start, i) == k <==> (k - start) % 256 == i
  {
  }

  /**
   * A write of n data bytes leaves every register it does not reach
   * unchanged: those at distance n or more past the start address.
   */
  lemma {:induction false} WriteFrame(w: WriteState, start: Address, ds: seq<bv8>, t: Tables, k: Address)
    requires |w.regs| == 256
    requires (k - start) % 256 >= |ds|
    ensures WriteBytes(w, start, ds, t).regs[k] == w.regs[k]
  {
    if ds != [] {
      var n := |ds| - 1;
      WriteFrame(w, start, ds[..n], t, k);
      CursorDistance(start, n, k);
    }
  }

  /**
   * In a write of at most 256 data bytes, data byte j ends up at
   * (start + j) mod 256, with the value computed against the state left by
   * the bytes before it.
   */
  lemma {:induction false} WriteStores(w: WriteState, start: Address, ds: seq<bv8>, t: Tables, j: int)
    requires |w.regs| == 256
    requires 0 <= j < |ds| <= 256
    ensures WriteBytes(w, start, ds, t).regs[Cursor(start, j)]
         == StoredValue(WriteBytes(w, start, ds[..j], t), start, Cursor(start, j), ds[j], t)
  {
    var n := |ds| - 1;
    var prev := WriteBytes(w, start, ds[..n], t);
    var at := Cursor(start, n);
    if j < n {
      WriteStores(w, start, ds[..n], t, j);
      assert ds[..n][..j] == ds[..j];
      CursorsDistinct(start, j, n);
      StoreByteFrame(prev, start, at, ds[n], t, Cursor(start, j));
    } else {
      assert ds[..j] == ds[..n];
    }
  }

  /** Storing one byte changes only the register at the cursor. */
  lemma StoreByteFrame(w: WriteState, start: Address, at: Address, d: bv8, t: Tables, k: Address)
    requires |w.regs| == 256 && k != at
    ensures StoreByte(w, start, at, d, t).regs[k] == w.regs[k]
  {
  }

  /**
   * A write clears `crypt_setup_done` exactly when it starts at 0xF0 and
   * carries a 0x55 data byte; nothing in the store loop sets it.
   */
  lemma {:induction false} WriteCryptFlag(w: WriteState, start: Address, ds: seq<bv8>, t: Tables)
    requires |w.regs| == 256
    ensures WriteBytes(w, start, ds, t).cryptSetupDone
         == (w.cryptSetupDone && !(start == 0xF0 && 0x55 in ds))
  {
    if ds != [] {
      var n := |ds| - 1;
      WriteCryptFlag(w, start, ds[..n], t);
      assert ds == ds[..n] + [ds[n]];
    }
  }

  /**
   * Key capture is requested exactly when the cursor reaches 0x50, i.e.
   * when the write stores a byte at 0x4F.
   */
  lemma {:induction false} WriteKeysFlag(w: WriteState, start: Address, ds: seq<bv8>, t: Tables)
    requires |w.regs| == 256
    ensures WriteBytes(w, start, ds, t).keysReceived
         == (w.keysReceived || (0x4F - start) % 256 < |ds|)
  {
    if ds != [] {
      var n := |ds| - 1;
      WriteKeysFlag(w, start, ds[..n], t);
      if n < 256 {
        CursorDistance(start, n, 0x4F);
      }
    }
  }

  /**
   * Without keys set up, a write of at most 256 bytes stores every data
   * byte raw at its cursor position.
   */
  lemma PlainWriteStoresRaw(w: WriteState, start: Address, ds: seq<bv8>, t: Tables, j: int)
    requires |w.regs| == 256 && !w.cryptSetupDone
    requires 0 <= j < |ds| <= 256
    ensures WriteBytes(w, start, ds, t).regs[Cursor(start, j)] == ds[j]
  {
    WriteStores(w, start, ds, t, j);
    WriteCryptFlag(w, start, ds[..j], t);
  }

  /**
   * With encryption on and register 0xF0 outside the written range, every
   * data byte is stored unmasked.
   */
  lemma EncryptedWriteStoresDecrypted(w: WriteState, start: Address, ds: seq<bv8>, t: Tables, j: int)
    requires |w.regs| == 256 && w.cryptSetupDone && w.regs[0xF0] == 0xAA
    requires start != 0xF0 && (0xF0 - start) % 256 >= |ds|
    requires 0 <= j < |ds| <= 256
    ensures WriteBytes(w, start, ds, t).regs[Cursor(start, j)]
         == Decrypt(ds[j], t, Cursor(start, j))
  {
    WriteStores(w, start, ds, t, j);
    WriteCryptFlag(w, start, ds[..j], t);
    WriteFrame(w, start, ds[..j], t, 0xF0);
  }

  /**
   * Under the same conditions, reading a register back through the masked
   * read path gives the host exactly the byte it wrote there.
   */
  lemma HostReadsBackWhatItWrote(w: WriteState, start: Address, ds: seq<bv8>, t: Tables, j: int)
    requires |w.regs| == 256 && w.cryptSetupDone && w.regs[0xF0] == 0xAA
    requires start != 0xF0 && (0xF0 - start) % 256 >= |ds|
    requires 0 <= j < |ds| <= 256
    ensures Encrypt(WriteBytes(w, start, ds, t).regs[Cursor(start, j)], t, Cursor(start, j))
         == ds[j]
  {
    EncryptedWriteStoresDecrypted(w, start, ds, t, j);
    EncryptDecrypt(ds[j], t, Cursor(start, j));
  }

  // ---------------------------------------------------------------------
  // Key capture (`setup_encryption`)
  // ---------------------------------------------------------------------

  /** `wm_rand` as `setup_encryption` fills it from registers 0x40..0x49. */
  function RandFromRegisters(regs: seq<bv8>): (r: seq<bv8>)
    requires |regs| == 256
    ensures |r| == 10
    ensures forall i :: 0x40 <= i <= 0x49 ==> r[9 - (i - 0x40)] == regs[i]
  {
    seq(10, m requires 0 <= m < 10 => regs[0x49 - m])
  }

  /** `wm_key` as `setup_encryption` fills it from registers 0x4A..0x4F. */
  function KeyFromRegisters(regs: seq<bv8>): (r: seq<bv8>)
    requires |regs| == 256
    ensures |r| == 6
    ensures forall i :: 0x4A <= i <= 0x4F ==> r[5 - (i - 0x4A)] == regs[i]
  {
    seq(6, m requires 0 <= m < 6 => regs[0x4F - m])
  }

  // ---------------------------------------------------------------------
  // Bus reads (`handle_request`)
  // ---------------------------------------------------------------------

  /**
   * The `last_state`/`offset` pair after a generic read at `st`: the
   * offset grows by 8 (as a byte) while the address is the one of the last
   * generic read, and restarts at 0 otherwise.
   */
  function NextPage(last: Address, offset: Address, st: Address): (Address, Address)
  {
    if last == st then (last, (offset + 8) % 256) else (st, 0)
  }

  /** The pair after n generic reads in a row at `st`. */
  function Pages(last: Address, offset: Address, st: Address, n: nat): (Address, Address)
  {
    if n == 0 then (last, offset)
    else
      var p := Pages(last, offset, st, n - 1);
      NextPage(p.0, p.1, st)
  }

  /**
   * Reading n+1 times in a row at an address other than the last one read
   * serves pages 0, 8, 16, ... : the last read uses offset 8n mod 256.
   */
  lemma {:induction false} RepeatedReadsPage(last: Address, offset: Address, st: Address, n: nat)
    requires last != st
    ensures Pages(last, offset, st, n + 1) == (st, (8 * n) % 256)
  {
    if n > 0 {
      RepeatedReadsPage(last, offset, st, n - 1);
    }
  }

  /**
   * `last_state` starts at 0xFF, so the very first generic read, if it is
   * at 0xFF, is served from offset 8 rather than 0.
   */
  lemma FirstReadAtLastRegisterSkipsAPage()
    ensures NextPage(0xFF, 0, 0xFF) == (0xFF, 8)
    ensures forall st: Address :: st != 0xFF ==> NextPage(0xFF, 0, st) == (st, 0)
  {
  }

  /** What one read request puts on the bus. */
  datatype Reply =
    | Sent(bytes: seq<bv8>)
      /** The generic read starting at `start` runs past register 0xFF. */
    | Overrun(start: int)

  /** What a bus write reports to a receive callback: start address and data count. */
  datatype WriteNotice = NoNotice | Notice(start: Address, count: Address)

  // ---------------------------------------------------------------------
  // Initialisation (`init` / `wiimote_init`, register part)
  // ---------------------------------------------------------------------

  /**
   * The calibration bytes both front ends start with: centre 0x7E, range
   * 0x04..0xFC for each axis; bytes 14 and 15 are fixed by initialisation.
   */
  const DefaultCalibration: seq<bv8> :=
    [0xFC, 0x04, 0x7E, 0xFC, 0x04, 0x7E, 0xFC, 0x04, 0x7E, 0xFC, 0x04, 0x7E, 0x00, 0x00, 0x00, 0x00]

  /** The byte sum of `s`, wrapping as the source's `byte calchecksum` does. */
  function Sum(s: seq<bv8>): bv8
    decreases |s|
  {
    if s == [] then 0 else Sum(s[..|s| - 1]) + s[|s| - 1]
  }

  /** The calibration bytes with bytes 14 and 15 recomputed as checksums. */
  function WithChecksum(cal: seq<bv8>): (r: seq<bv8>)
    requires |cal| == 16
    ensures |r| == 16 && r[..14] == cal[..14]
    ensures r[14] == Sum(cal[..14]) + 0x55 && r[15] == Sum(cal[..14]) + 0xAA
  {
    cal[..14] + [Sum(cal[..14]) + 0x55, Sum(cal[..14]) + 0xAA]
  }

  /** Register `k` right after initialisation with calibration bytes `cal`. */
  function InitialRegister(k: Address, cal: seq<bv8>): bv8
    requires |cal| == 16
  {
    if k >= 0xFA then Id[k - 0xFA]
    else if 0x20 <= k < 0x40 then cal[k % 16]
    else if k == 0xF0 then 0x55
    else 0xFF
  }

  function InitialRegisters(cal: seq<bv8>): (r: seq<bv8>)
    requires |cal| == 16
    ensures |r| == 256
  {
    seq(256, k requires 0 <= k < 256 => InitialRegister(k, cal))
  }

  /**
   * After initialisation both calibration copies carry checksums a host
   * can check: byte 14 is the sum of bytes 0..13 plus 0x55, byte 15 that
   * sum plus 0xAA.
   */
  lemma InitialCalibrationChecks(cal: seq<bv8>)
    requires |cal| == 16
    ensures var r := InitialRegisters(WithChecksum(cal));
      && r[0x2E] == Sum(r[0x20..0x2E]) + 0x55 && r[0x2F] == Sum(r[0x20..0x2E]) + 0xAA
      && r[0x3E] == Sum(r[0x30..0x3E]) + 0x55 && r[0x3F] == Sum(r[0x30..0x3E]) + 0xAA
  {
    var c := WithChecksum(cal);
    var r := InitialRegisters(c);
    assert r[0x20..0x2E] == c[..14];
    assert r[0x30..0x3E] == c[..14];
  }

  /** Both calibration copies are the same 16 bytes. */
  lemma InitialCalibrationMirrored(cal: seq<bv8>)
    requires |cal| == 16
    ensures var r := InitialRegisters(cal);
      r[0x20..0x30] == r[0x30..0x40] == cal
  {
  }

  /** Calibration byte b sits at 0x20 + b and at 0x30 + b. */
  lemma InitialCalibrationBytes(cal: seq<bv8>, b: int)
    requires |cal| == 16 && 0 <= b < 16
    ensures InitialRegisters(cal)[0x20 + b] == cal[b] == InitialRegisters(cal)[0x30 + b]
  {
    assert (0x20 + b) % 16 == b && (0x30 + b) % 16 == b;
  }

  /**
   * The engine state shared by the two front ends.  `genTabs` stands for
   * WMCrypt's key schedule, which is not modelled: any deterministic
   * function from the captured random and key bytes to a pair of tables.
   */
  class Engine {
    const registers: array<bv8>
    const wmRand: array<bv8>
    const wmKey: array<bv8>
    const genTabs: (seq<bv8>, seq<bv8>) -> Tables

    /** The address selected by the last one-byte write. */
    var state: Address
    var cryptSetupDone: bool
    /** `wm_ft` and `wm_sb`. */
    var tables: Tables
    /** The static paging pair of `handle_request`. */
    var lastState: Address
    var offset: Address

    ghost predicate Valid()
      reads this
    {
      && registers.Length == 256 && wmRand.Length == 10 && wmKey.Length == 6
      && registers != wmRand && registers != wmKey && wmRand != wmKey
    }

    /** Encryption is on only when register 0xF0 holds 0xAA and keys are set up. */
    predicate EncryptionOn()
      requires Valid()
      reads this, registers
    {
      registers[0xF0] == 0xAA && cryptSetupDone
    }

    /** The statics as the program starts, before `init`. */
    constructor (genTabs: (seq<bv8>, seq<bv8>) -> Tables)
      ensures Valid() && fresh(registers) && fresh(wmRand) && fresh(wmKey)
      ensures this.genTabs == genTabs
      ensures forall k :: 0 <= k < 256 ==> registers[k] == 0
      ensures state == 0 && !cryptSetupDone && tables == ZeroTables
      ensures lastState == 0xFF && offset == 0
    {
      registers := new bv8[256](_ => 0);
      wmRand := new bv8[10](_ => 0);
      wmKey := new bv8[6](_ => 0);
      this.genTabs := genTabs;
      state := 0;
      cryptSetupDone := false;
      tables := ZeroTables;
      lastState := 0xFF;
      offset := 0;
    }

    /** `setup_encryption`: captures the key bytes, builds the tables, turns keys on. */
    method SetupEncryption()
      requires Valid()
      modifies wmRand, wmKey, this`tables, this`cryptSetupDone
      ensures wmRand[..] == RandFromRegisters(registers[..])
      ensures wmKey[..] == KeyFromRegisters(registers[..])
      ensures tables == genTabs(wmRand[..], wmKey[..]) && cryptSetupDone
    {
      var i := 0x40;
      while i <= 0x49
        invariant 0x40 <= i <= 0x4A
        invariant forall m :: 0x40 <= m < i ==> wmRand[9 - (m - 0x40)] == registers[m]
      {
        wmRand[9 - (i - 0x40)] := registers[i];
        i := i + 1;
      }
      i := 0x4A;
      while i <= 0x4F
        invariant 0x4A <= i <= 0x50
        invariant forall m :: 0x4A <= m < i ==> wmKey[5 - (m - 0x4A)] == registers[m]
        invariant forall m :: 0x40 <= m <= 0x49 ==> wmRand[9 - (m - 0x40)] == registers[m]
      {
        wmKey[5 - (i - 0x4A)] := registers[i];
        i := i + 1;
      }
      forall m | 0 <= m < 10
        ensures wmRand[m] == registers[0x49 - m]
      {
        assert wmRand[9 - ((0x49 - m) - 0x40)] == registers[0x49 - m];
      }
      forall m | 0 <= m < 6
        ensures wmKey[m] == registers[0x4F - m]
      {
        assert wmKey[5 - ((0x4F - m) - 0x4A)] == registers[0x4F - m];
      }
      assert wmRand[..] == RandFromRegisters(registers[..]);
      assert wmKey[..] == KeyFromRegisters(registers[..]);
      tables := genTabs(wmRand[..], wmKey[..]);
      cryptSetupDone := true;
    }

    /**
     * `send_data`: the first `size` bytes of `data`, masked from address
     * `addr` upwards when encryption is on.  The source's static 8-byte
     * buffer is the local `buffer`.
     */
    method SendData(data: seq<bv8>, size: int, addr: Address) returns (sent: seq<bv8>)
      requires Valid()
      requires 0 <= size <= 8 && size <= |data|
      ensures EncryptionOn() ==> sent == EncryptBlock(data[..size], tables, addr)
      ensures !EncryptionOn() ==> sent == data[..size]
    {
      if registers[0xF0] == 0xAA && cryptSetupDone {
        var buffer: seq<bv8> := [];
        var i := 0;
        while i < size
          invariant 0 <= i <= size
          invariant buffer == EncryptBlock(data[..i], tables, addr)
        {
          buffer := buffer + [Encrypt(data[i], tables, addr + i)];
          i := i + 1;
        }
        sent := buffer;
      } else {
        sent := data[..size];
      }
    }

    /**
     * `receive_bytes`: the bus master wrote `bytes`.  One byte selects an
     * address; more bytes store data from the address in the first byte
     * on, and key capture follows if the cursor reached 0x50.  The result
     * is what `wiimote_receive` would be told.
     */
    method ReceiveBytes(bytes: seq<bv8>) returns (notice: WriteNotice)
      requires Valid()
      modifies registers, wmRand, wmKey, this`state, this`cryptSetupDone, this`tables
      ensures |bytes| == 1 ==> state == bytes[0] as int
      ensures |bytes| != 1 ==> state == old(state)
      ensures |bytes| <= 1 ==>
        && registers[..] == old(registers[..]) && cryptSetupDone == old(cryptSetupDone)
        && tables == old(tables) && wmRand[..] == old(wmRand[..]) && wmKey[..] == old(wmKey[..])
      ensures |bytes| > 1 ==>
        var w := WriteBytes(WriteState(old(registers[..]), old(cryptSetupDone), false),
                            bytes[0] as int, bytes[1..], old(tables));
        && registers[..] == w.regs
        && (w.keysReceived ==>
              && wmRand[..] == RandFromRegisters(w.regs) && wmKey[..] == KeyFromRegisters(w.regs)
              && tables == genTabs(wmRand[..], wmKey[..]) && cryptSetupDone)
        && (!w.keysReceived ==>
              && cryptSetupDone == w.cryptSetupDone && tables == old(tables)
              && wmRand[..] == old(wmRand[..]) && wmKey[..] == old(wmKey[..]))
      ensures notice == if |bytes| > 1 then Notice(bytes[0] as int, (|bytes| - 1) % 256) else NoNotice
    {
      notice := NoNotice;
      if |bytes| == 1 {
        state := bytes[0] as int;
      } else if |bytes| > 1 {
        var keysReceived := StoreData(bytes[0] as int, bytes[1..]);
        notice := Notice(bytes[0] as int, (|bytes| - 1) % 256);
        if keysReceived {
          SetupEncryption();
        }
      }
    }

    /**
     * The store loop of `receive_bytes`: data bytes `ds` go to consecutive
     * registers from `start`, the cursor wrapping as a byte.  The result
     * says whether the cursor reached 0x50.
     */
    method StoreData(start: Address, ds: seq<bv8>) returns (keysReceived: bool)
      requires Valid()
      modifies registers, this`cryptSetupDone
      ensures WriteBytes(WriteState(old(registers[..]), old(cryptSetupDone), false), start, ds, tables)
           == WriteState(registers[..], cryptSetupDone, keysReceived)
    {
      keysReceived := false;
      var curr: Address := start;
      ghost var w0 := WriteState(registers[..], cryptSetupDone, false);
      var i := 0;
      while i < |ds|
        invariant 0 <= i <= |ds|
        invariant curr == Cursor(start, i)
        invariant WriteBytes(w0, start, ds[..i], tables)
               == WriteState(registers[..], cryptSetupDone, keysReceived)
      {
        var d := ds[i];
        ghost var before := WriteState(registers[..], cryptSetupDone, keysReceived);
        WriteBytesAppend(w0, start, ds[..i], d, tables);
        assert ds[..i] + [d] == ds[..i + 1];
        if start == 0xF0 && d == 0x55 {
          cryptSetupDone := false;
        }
        if registers[0xF0] == 0xAA && cryptSetupDone {
          registers[curr] := Decrypt(d, tables, curr);
        } else {
          registers[curr] := d;
        }
        CursorStep(start, i);
        curr := (curr + 1) % 256;
        if curr == 0x50 {
          keysReceived := true;
        }
        StoreStep(before, start, Cursor(start, i), d, tables, registers[..], cryptSetupDone, keysReceived);
        i := i + 1;
      }
      assert ds[..i] == ds;
    }

    /**
     * `handle_request`: the bus master reads.  At 0x00 the six report
     * bytes go out, at 0xFA the six identification registers, anywhere
     * else eight registers from the selected address plus the paging
     * offset.  Every reply goes through `send_data`, so it is masked when
     * encryption is on.
     */
    method HandleRequest(report: seq<bv8>) returns (reply: Reply)
      requires Valid() && |report| >= 6
      modifies this`lastState, this`offset
      ensures state == 0x00 ==>
        && lastState == old(lastState) && offset == old(offset)
        && reply == Sent(if EncryptionOn() then EncryptBlock(report[..6], tables, 0) else report[..6])
      ensures state == 0xFA ==>
        && lastState == old(lastState) && offset == old(offset)
        && reply == Sent(if EncryptionOn() then EncryptBlock(registers[0xFA..], tables, 0xFA)
                         else registers[0xFA..])
      ensures state != 0x00 && state != 0xFA ==>
        && (lastState, offset) == NextPage(old(lastState), old(offset), state)
        && (state + offset + 8 > 256 ==> reply == Overrun(state + offset))
        && (state + offset + 8 <= 256 ==>
              var window := registers[state + offset .. state + offset + 8];
              reply == Sent(if EncryptionOn() then EncryptBlock(window, tables, state + offset)
                            else window))
    {
      if state == 0x00 {
        var sent := SendData(report, 6, 0x00);
        reply := Sent(sent);
      } else if state == 0xFA {
        assert registers[0xFA..][..6] == registers[0xFA..];
        var sent := SendData(registers[0xFA..], 6, state);
        reply := Sent(sent);
      } else {
        if lastState == state {
          offset := (offset + 8) % 256;
        } else {
          lastState := state;
          offset := 0;
        }
        assert (lastState, offset) == NextPage(old(lastState), old(offset), state);
        var start := state + offset;
        if start + 8 > 256 {
          reply := Overrun(start);
        } else {
          var window := registers[start .. start + 8];
          assert window[..8] == window && start % 256 == start;
          var sent := SendData(window, 8, start % 256);
          reply := Sent(sent);
        }
      }
    }

    /**
     * The register part of `init` / `wiimote_init`: fill with 0xFF, store
     * the identification bytes, recompute the calibration checksums in
     * `cal`, store both calibration copies, then 0xF0 := 0x55 and
     * 0xFB := 0x00.  (The source encodes the initial report between the
     * calibration copy and the last two stores; the report is a separate
     * buffer, so the order is immaterial.)
     */
    method LoadInitialRegisters(cal: array<bv8>)
      requires Valid() && cal.Length == 16
      requires cal != registers && cal != wmRand && cal != wmKey
      modifies registers, cal
      ensures cal[..] == WithChecksum(old(cal[..]))
      ensures registers[..] == InitialRegisters(cal[..])
    {
      FillIdentification();
      StoreChecksums(cal);
      StoreCalibration(cal[..]);
    }

    /** Registers 0xFF everywhere but the identification bytes at 0xFA..0xFF. */
    method FillIdentification()
      requires Valid()
      modifies registers
      ensures forall k :: 0 <= k < 0xFA ==> registers[k] == 0xFF
      ensures forall k :: 0xFA <= k < 0x100 ==> registers[k] == Id[k - 0xFA]
    {
      forall k | 0 <= k < 256 {
        registers[k] := 0xFF;
      }
      var i := 0xFA;
      while i <= 0xFF
        invariant 0xFA <= i <= 0x100
        invariant forall k :: 0 <= k < 0xFA ==> registers[k] == 0xFF
        invariant forall k :: 0xFA <= k < i ==> registers[k] == Id[k - 0xFA]
      {
        registers[i] := Id[i - 0xFA];
        i := i + 1;
      }
    }

    /** Recomputes calibration bytes 14 and 15 as checksums of bytes 0..13. */
    static method StoreChecksums(cal: array<bv8>)
      requires cal.Length == 16
      modifies cal
      ensures cal[..] == WithChecksum(old(cal[..]))
    {
      var calchecksum: bv8 := 0;
      var i := 0;
      while i < 14
        invariant 0 <= i <= 14
        invariant calchecksum == Sum(cal[..i])
        invariant cal[..] == old(cal[..])
      {
        assert cal[..i + 1][..i] == cal[..i];
        calchecksum := calchecksum + cal[i];
        i := i + 1;
      }
      assert cal[..14] == old(cal[..14]);
      cal[14] := calchecksum + 0x55;
      cal[15] := calchecksum + 0xAA;
      assert cal[..14] == old(cal[..14]);
      assert cal[..] == WithChecksum(old(cal[..]));
    }

    /** Both calibration copies, then 0xF0 := 0x55 and 0xFB := 0x00. */
    method StoreCalibration(c: seq<bv8>)
      requires Valid() && |c| == 16
      requires forall k :: 0 <= k < 0xFA ==> registers[k] == 0xFF
      requires forall k :: 0xFA <= k < 0x100 ==> registers[k] == Id[k - 0xFA]
      modifies registers
      ensures registers[..] == InitialRegisters(c)
    {
      var i := 0x20;
      while i <= 0x2F
        invariant 0x20 <= i <= 0x30
        invariant forall k :: 0 <= k < 0x20 ==> registers[k] == 0xFF
        invariant forall k :: 0x20 <= k < i ==> registers[k] == c[k - 0x20]
        invariant forall k :: i <= k < 0x30 ==> registers[k] == 0xFF
        invariant forall k :: 0x30 <= k < i + 0x10 ==> registers[k] == c[k - 0x30]
        invariant forall k :: i + 0x10 <= k < 0xFA ==> registers[k] == 0xFF
        invariant forall k :: 0xFA <= k < 0x100 ==> registers[k] == Id[k - 0xFA]
      {
        registers[i] := c[i - 0x20];
        registers[i + 0x10] := c[i - 0x20];
        i := i + 1;
      }
      registers[0xF0] := 0x55;
      registers[0xFB] := 0x00;
      forall k | 0 <= k < 256
        ensures registers[k] == InitialRegister(k, c)
      {
        if 0x20 <= k < 0x30 {
          assert k % 16 == k - 0x20;
        } else if 0x30 <= k < 0x40 {
          assert k % 16 == k - 0x30;
        }
      }
    }
  }
}
