/**
 * The byte assembly shared by the bit-serial pad readers (the PlayStation
 * byte exchange and the NES/SNES shift register): eight line levels,
 * sampled one per clock pulse, least significant bit first.
 */
module Serial {
  import opened Report

  /** The byte whose bit i is `d[i]`: eight levels sampled least significant bit first. */
  function LsbFirst(d: seq<bool>): bv8
    requires |d| == 8
  {
    Flag(d[0], 0) | Flag(d[1], 1) | Flag(d[2], 2) | Flag(d[3], 3)
      | Flag(d[4], 4) | Flag(d[5], 5) | Flag(d[6], 6) | Flag(d[7], 7)
  }

  /** Bit i of the assembled byte is level i. */
  lemma LsbFirstBits(d: seq<bool>)
    requires |d| == 8
    ensures forall i: bv8 :: 0 <= i < 8 ==> (BitSet(LsbFirst(d), i) <==> d[i])
  {
  }
}
