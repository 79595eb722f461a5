/**
 * `uint32_pack(out, in)` of the constant database: the four bytes of a
 * 32-bit unsigned value, least significant first.
 */
module Uint32Pack {

  /** The little-endian bytes of `x`. */
  function Pack(x: bv32): (b: seq<bv8>)
    ensures |b| == 4
  {
    [(x & 0xff) as bv8, ((x >> 8) & 0xff) as bv8, ((x >> 16) & 0xff) as bv8, ((x >> 24) & 0xff) as bv8]
  }

  /** `uint32_unpack`: the value whose little-endian bytes are `b`. */
  function Unpack(b: seq<bv8>): bv32
    requires |b| == 4
  {
    (b[0] as bv32) | ((b[1] as bv32) << 8) | ((b[2] as bv32) << 16) | ((b[3] as bv32) << 24)
  }

  /** Packing then unpacking gives the value back. */
  lemma UnpackPack(x: bv32)
    ensures Unpack(Pack(x)) == x
  {
  }

  /** Unpacking then packing gives the bytes back. */
  lemma PackUnpack(b: seq<bv8>)
    requires |b| == 4
    ensures Pack(Unpack(b)) == b
  {
  }

  /**
   * The routine: write the low byte, shift `in` right by eight, and repeat
   * until four bytes are written. Nothing past `out[3]` is touched.
   */
  method Uint32Pack(out: array<bv8>, x: bv32)
    requires out.Length >= 4
    modifies out
    ensures out[..4] == Pack(x)
    ensures out[4..] == old(out[4..])
  {
    Shifts(x);
    var v := x;
    out[0] := (v & 0xff) as bv8;
    v := v >> 8;
    out[1] := (v & 0xff) as bv8;
    v := v >> 8;
    out[2] := (v & 0xff) as bv8;
    v := v >> 8;
    out[3] := (v & 0xff) as bv8;
    assert out[..4] == [out[0], out[1], out[2], out[3]];
  }

  /** Shifting right by eight twice or three times is one shift by sixteen or twenty-four. */
  lemma Shifts(x: bv32)
    ensures (x >> 8) >> 8 == x >> 16
    ensures ((x >> 8) >> 8) >> 8 == x >> 24
  {
  }
}
