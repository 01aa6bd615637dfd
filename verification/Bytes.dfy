/** Numbers as little-endian bytes. */
module Bytes {
  function ByteOf(n: nat): (b: bv8)
    requires n < 256
  {
    n as bv8
  }

  function ValueOf(b: bv8): (n: nat)
    ensures n < 256
  {
    b as int
  }

  lemma ByteRoundTrip(n: int)
    requires 0 <= n < 256
    ensures (n as bv8) as int == n
  {
    if n < 16 {} else if n < 32 {} else if n < 64 {} else if n < 128 {} else {}
  }

  function Power(width: nat): nat { if width == 0 then 1 else 256 * Power(width - 1) }

  /** The lowest `width` bytes of a number, as a cast and `to_le_bytes` give them. */
  function LittleEndian(width: nat, n: nat): (s: seq<bv8>)
    ensures |s| == width
  {
    if width == 0 then [] else [ByteOf(n % 256)] + LittleEndian(width - 1, n / 256)
  }

  function Number(s: seq<bv8>): nat {
    if s == [] then 0 else ValueOf(s[0]) + 256 * Number(s[1..])
  }

  lemma {:induction false} NumberRoundTrip(width: nat, n: nat)
    requires n < Power(width)
    ensures Number(LittleEndian(width, n)) == n
  {
    if width > 0 {
      NumberRoundTrip(width - 1, n / 256);
      ByteRoundTrip(n % 256);
      var s := LittleEndian(width, n);
      assert s[0] == ByteOf(n % 256) && s[1..] == LittleEndian(width - 1, n / 256);
    }
  }
}
