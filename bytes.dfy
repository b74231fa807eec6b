/** Bytes as the program handles them: the zero padding of a stream copy and
    the lower-case hexadecimal text that `binascii.hexlify(...).decode()`
    makes of a catalog gid. */
module Bytes {

  newtype byte = b: int | 0 <= b < 256

  /** `b"\x00" * n`: Python repeats a bytes value zero times when n <= 0. */
  function Zeros(n: int): (z: seq<byte>)
    ensures |z| == if n <= 0 then 0 else n
    ensures forall i :: 0 <= i < |z| ==> z[i] == 0
  {
    if n <= 0 then [] else seq(n, _ => 0)
  }

  /** A lower-case hexadecimal digit, as hexlify writes them. */
  predicate IsHexDigit(c: char)
  {
    '0' <= c <= '9' || 'a' <= c <= 'f'
  }

  function HexDigit(n: nat): (c: char)
    requires n < 16
    ensures IsHexDigit(c)
  {
    if n < 10 then (48 + n) as char else (87 + n) as char
  }

  /** The inverse of HexDigit. */
  function HexValue(c: char): (n: nat)
    requires IsHexDigit(c)
    ensures n < 16 && HexDigit(n) == c
  {
    if '0' <= c <= '9' then (c as int - 48) as nat else (c as int - 87) as nat
  }

  /** `binascii.hexlify(gid).decode()`: two lower-case digits per byte, high nibble first. */
  function HexLify(bs: seq<byte>): (s: string)
    ensures |s| == 2 * |bs|
    ensures forall i :: 0 <= i < |s| ==> IsHexDigit(s[i])
  {
    if bs == [] then []
    else [HexDigit(bs[0] as nat / 16), HexDigit(bs[0] as nat % 16)] + HexLify(bs[1..])
  }

  /** Reads hexadecimal text back into bytes, two digits at a time. */
  function Unhexlify(s: string): seq<byte>
    requires |s| % 2 == 0
    requires forall i :: 0 <= i < |s| ==> IsHexDigit(s[i])
  {
    if s == [] then []
    else [(HexValue(s[0]) * 16 + HexValue(s[1])) as byte] + Unhexlify(s[2..])
  }

  /** Reading the hexadecimal text back gives the gid: hexlify loses nothing. */
  lemma {:induction false} HexLifyRoundTrip(bs: seq<byte>)
    ensures Unhexlify(HexLify(bs)) == bs
  {
    if bs != [] {
      var s := HexLify(bs);
      var t := HexLify(bs[1..]);
      assert s[2..] == t;
      HexLifyRoundTrip(bs[1..]);
      var hi, lo := bs[0] as nat / 16, bs[0] as nat % 16;
      assert (HexValue(s[0]) * 16 + HexValue(s[1])) as byte == bs[0];
      assert Unhexlify(t) == bs[1..];
      assert bs == [bs[0]] + bs[1..];
    }
  }

  lemma HexLifyInjective(a: seq<byte>, b: seq<byte>)
    requires HexLify(a) == HexLify(b)
    ensures a == b
  {
    HexLifyRoundTrip(a);
    HexLifyRoundTrip(b);
  }
}
