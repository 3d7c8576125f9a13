/**
 * The per-byte masking the Classic Controller applies once the host has
 * set up encryption.  The key schedule (WMCrypt's gentabs, S-boxes and
 * answer tables) is not modelled: the two 8-byte tables it produces are
 * arbitrary here, and every property below holds for any pair of tables.
 */
module Cipher {

  /** One of the two 8-entry tables, `wm_ft` or `wm_sb`. */
  type Table = t: seq<bv8> | |t| == 8 witness [0, 0, 0, 0, 0, 0, 0, 0]

  /** The pair of tables produced by the key schedule. */
  datatype Tables = Tables(ft: Table, sb: Table)

  const ZeroTables: Tables := Tables([0, 0, 0, 0, 0, 0, 0, 0], [0, 0, 0, 0, 0, 0, 0, 0])

  /** The table slot used for a byte at register address `addr`. */
  function Slot(addr: int): (k: int)
    requires addr >= 0
    ensures 0 <= k < 8
  {
    addr % 8
  }

  /** Masking applied to a byte the extension sends, as `send_data` does. */
  function Encrypt(x: bv8, t: Tables, addr: int): bv8
    requires addr >= 0
  {
    (x - t.ft[Slot(addr)]) ^ t.sb[Slot(addr)]
  }

  /** Unmasking applied to a byte the host writes, as `receive_bytes` does. */
  function Decrypt(x: bv8, t: Tables, addr: int): bv8
    requires addr >= 0
  {
    (x ^ t.sb[Slot(addr)]) + t.ft[Slot(addr)]
  }

  /** Every byte the extension sends, masked from `addr` upwards. */
  function EncryptBlock(data: seq<bv8>, t: Tables, addr: int): (r: seq<bv8>)
    requires addr >= 0
    ensures |r| == |data|
  {
    seq(|data|, i requires 0 <= i < |data| => Encrypt(data[i], t, addr + i))
  }

  /** A host that unmasks a block byte by byte gets the data back. */
  lemma DecryptBlock(data: seq<bv8>, t: Tables, addr: int)
    requires addr >= 0
    ensures forall i :: 0 <= i < |data| ==> Decrypt(EncryptBlock(data, t, addr)[i], t, addr + i) == data[i]
  {
    forall i | 0 <= i < |data|
      ensures Decrypt(EncryptBlock(data, t, addr)[i], t, addr + i) == data[i]
    {
      DecryptEncrypt(data[i], t, addr + i);
    }
  }

  /** Unmasking undoes masking, whatever the tables. */
  lemma DecryptEncrypt(x: bv8, t: Tables, addr: int)
    requires addr >= 0
    ensures Decrypt(Encrypt(x, t, addr), t, addr) == x
  {
  }

  /** Masking undoes unmasking, whatever the tables. */
  lemma EncryptDecrypt(x: bv8, t: Tables, addr: int)
    requires addr >= 0
    ensures Encrypt(Decrypt(x, t, addr), t, addr) == x
  {
    UnmaskThenMask(x, t.ft[Slot(addr)], t.sb[Slot(addr)]);
  }

  /** The byte-level identity behind EncryptDecrypt. */
  lemma UnmaskThenMask(x: bv8, f: bv8, m: bv8)
    ensures (((x ^ m) + f) - f) ^ m == x
  {
  }

  /**
   * The slot of an address does not depend on whether the address was
   * first reduced to a byte: `(addr + i) % 8` in `send_data` and
   * `curr % 8` in `receive_bytes` agree.
   */
  lemma SlotIgnoresByteWrap(addr: int)
    requires addr >= 0
    ensures Slot(addr % 256) == Slot(addr)
  {
  }
}
