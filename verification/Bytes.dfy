/** Machine words and their big-endian byte forms (Go's encoding/binary). */
module Bytes {
  import opened Digits

  type byte = n: nat | n < 256
  type uint16 = n: nat | n < 0x1_0000
  type uint32 = n: nat | n < 0x1_0000_0000
  type uint64 = n: nat | n < 0x1_0000_0000_0000_0000

  type Word32 = s: seq<byte> | |s| == 32 witness seq(32, _ => 0)

  function BigEndian(n: nat, width: nat): (bs: seq<byte>)
    ensures |bs| == width
  {
    Fixed(n, 256, width)
  }

  function FromBigEndian(bs: seq<byte>): nat {
    FromDigits(bs, 256)
  }

  lemma PowersOf256()
    ensures Power(256, 2) == 0x1_0000
    ensures Power(256, 4) == 0x1_0000_0000
    ensures Power(256, 8) == 0x1_0000_0000_0000_0000
  {
    assert Power(256, 1) == 256;
    assert Power(256, 3) == 0x100_0000;
    assert Power(256, 5) == 0x100_0000_0000;
    assert Power(256, 6) == 0x1_0000_0000_0000;
    assert Power(256, 7) == 0x100_0000_0000_0000;
  }

  lemma BigEndianRoundTrip(n: nat, width: nat)
    requires n < Power(256, width)
    ensures FromBigEndian(BigEndian(n, width)) == n
  {
    FromFixed(n, 256, width);
  }

  /** Fill a buffer with the big-endian form of a word, last byte first. */
  method PutBigEndian(b: array<byte>, n: nat)
    modifies b
    ensures b[..] == BigEndian(n, b.Length)
  {
    var i, x := b.Length, n;
    while i > 0
      invariant 0 <= i <= b.Length
      invariant BigEndian(n, b.Length) == BigEndian(x, i) + b[i..]
    {
      i := i - 1;
      b[i] := x % 256;
      x := x / 256;
      assert b[i..] == [b[i]] + b[i + 1..];
    }
  }
}
