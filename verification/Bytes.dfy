/** Octets, 16-bit words and their little-endian layout (src/ble/gatt_att.c, packed structs of packet.h). */
module Bytes {

  type byte = x: int | 0 <= x < 0x100

  type u16 = x: int | 0 <= x < 0x1_0000

  datatype Option<+T> = None | Some(value: T)

  /** `lo | hi << 8`: the two operands share no bit, so the disjunction is a sum. */
  function ReadU16(s: seq<byte>, offset: nat): u16
    requires offset + 1 < |s|
  {
    s[offset] as int + 0x100 * (s[offset + 1] as int)
  }

  function U16Bytes(v: u16): (s: seq<byte>)
    ensures |s| == 2
  {
    [v % 0x100, v / 0x100]
  }

  /** `unsigned short` arithmetic wraps. */
  function ToU16(v: int): u16 { v % 0x1_0000 }

  /** Two's complement reading of the 16-bit word at `offset`. */
  function ReadI16(s: seq<byte>, offset: nat): (v: int)
    requires offset + 1 < |s|
    ensures -0x8000 <= v < 0x8000
    ensures (v - ReadU16(s, offset)) % 0x1_0000 == 0
  {
    var u := ReadU16(s, offset);
    if u >= 0x8000 then u - 0x1_0000 else u
  }

  /** The low octet comes first, in words written and in words read, signed or not. */
  lemma {:induction false} LowOctetFirst(lo: byte, hi: byte)
    ensures U16Bytes(lo as int + 0x100 * hi as int) == [lo, hi]
    ensures ReadU16([lo, hi], 0) as int == lo as int + 0x100 * hi as int
    ensures ReadI16([lo, hi], 0) == lo as int + 0x100 * (if hi < 0x80 then hi as int else hi as int - 0x100)
  {
  }

  lemma {:induction false} ReadOfWritten(prefix: seq<byte>, v: u16, suffix: seq<byte>)
    ensures ReadU16(prefix + U16Bytes(v) + suffix, |prefix|) == v
  {
    var s := prefix + U16Bytes(v) + suffix;
    assert s[|prefix|] == v % 0x100 && s[|prefix| + 1] == v / 0x100;
  }

  lemma {:induction false} MiddleSlice<T>(a: seq<T>, b: seq<T>, c: seq<T>, lo: nat, hi: nat)
    requires lo <= hi <= |b|
    ensures (a + b + c)[|a| + lo..|a| + hi] == b[lo..hi]
  {
    var s := a + b + c;
    assert s[|a|..|a| + |b|] == b;
    assert s[|a| + lo..|a| + hi] == s[|a|..|a| + |b|][lo..hi];
  }
}
