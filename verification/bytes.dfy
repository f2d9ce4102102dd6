/** Bytes, big-endian integers and the `Buffer` text conversions the code relies on. */
module Bytes {
  import opened Wrappers

  type byte = x: int | 0 <= x < 0x100
  type uint32 = x: int | 0 <= x < 0x1_0000_0000

  /** The unsigned integer a big-endian byte string denotes. */
  function FromBigEndian(bs: seq<byte>): nat
  {
    if |bs| == 0 then 0 else FromBigEndian(bs[..|bs| - 1]) * 0x100 + bs[|bs| - 1]
  }

  /** `buf.writeUInt32BE(x, o)`: the four bytes written at `o`, most significant first. */
  function BigEndian32(x: uint32): (r: seq<byte>)
    ensures |r| == 4
    ensures FromBigEndian(r) == x
  {
    var r := [x / 0x100_0000, (x / 0x1_0000) % 0x100, (x / 0x100) % 0x100, x % 0x100];
    BigEndian32Value(x, r);
    r
  }

  lemma BigEndian32Value(x: uint32, r: seq<byte>)
    requires r == [x / 0x100_0000, (x / 0x1_0000) % 0x100, (x / 0x100) % 0x100, x % 0x100]
    ensures FromBigEndian(r) == x
  {
    assert r[..3][..2][..1][..0] == [];
    assert FromBigEndian(r[..3][..2][..1]) == x / 0x100_0000;
    assert FromBigEndian(r[..3][..2]) == x / 0x1_0000 by {
      assert r[..3][..2] == [x / 0x100_0000, (x / 0x1_0000) % 0x100];
      assert x / 0x100_0000 * 0x100 + (x / 0x1_0000) % 0x100 == x / 0x1_0000;
    }
    assert FromBigEndian(r[..3]) == x / 0x100 by {
      assert x / 0x1_0000 * 0x100 + (x / 0x100) % 0x100 == x / 0x100;
    }
    assert x / 0x100 * 0x100 + x % 0x100 == x;
  }

  /** The shortest big-endian byte string denoting `n`; empty for zero. */
  function MinimalBigEndian(n: nat): (r: seq<byte>)
    decreases n
  {
    if n == 0 then [] else MinimalBigEndian(n / 0x100) + [n % 0x100]
  }

  lemma {:induction false} MinimalBigEndianRoundTrip(n: nat)
    ensures FromBigEndian(MinimalBigEndian(n)) == n
    ensures n > 0 ==> |MinimalBigEndian(n)| > 0 && MinimalBigEndian(n)[0] != 0
    decreases n
  {
    if n > 0 {
      MinimalBigEndianRoundTrip(n / 0x100);
      var r := MinimalBigEndian(n);
      assert r[..|r| - 1] == MinimalBigEndian(n / 0x100);
    }
  }

  /** Clamped `buf.slice(start, end)` with `start <= end`, as `Buffer` performs it. */
  function Slice(bs: seq<byte>, start: nat, end: nat): (r: seq<byte>)
    requires start <= end
    ensures end <= |bs| ==> r == bs[start..end]
    ensures start < |bs| < end ==> r == bs[start..]
    ensures |bs| <= start ==> r == []
  {
    bs[Min(start, |bs|)..Min(end, |bs|)]
  }

  const HexDigits: string := "0123456789abcdef"

  /** `buf.toString('hex')`: two lower-case digits per byte. */
  function Hex(bs: seq<byte>): (r: string)
    ensures |r| == 2 * |bs|
  {
    if |bs| == 0 then [] else [HexDigits[bs[0] / 16], HexDigits[bs[0] % 16]] + Hex(bs[1..])
  }

  /** `Buffer.alloc(n, 0)`: `n` zero bytes. */
  function Alloc(n: nat): (r: seq<byte>)
    ensures |r| == n
  {
    seq(n, _ => 0)
  }

  /** The hex text of zero bytes is all `0` digits. */
  lemma {:induction false} HexOfZeros(n: nat)
    ensures |Hex(Alloc(n))| == 2 * n
    ensures forall i | 0 <= i < 2 * n :: Hex(Alloc(n))[i] == '0'
  {
    if n > 0 {
      HexOfZeros(n - 1);
      assert Alloc(n)[0] == 0;
      assert Alloc(n)[1..] == Alloc(n - 1);
      assert Hex(Alloc(n)) == ['0', '0'] + Hex(Alloc(n - 1));
    }
  }

  lemma {:induction false} HexAppend(a: seq<byte>, b: seq<byte>)
    ensures Hex(a + b) == Hex(a) + Hex(b)
  {
    if |a| == 0 {
      assert a + b == b;
    } else {
      assert (a + b)[1..] == a[1..] + b;
      HexAppend(a[1..], b);
    }
  }

  /** The value of one lower-case hexadecimal digit. */
  function HexValue(c: char): Option<nat>
  {
    if '0' <= c <= '9' then Some(c as int - '0' as int)
    else if 'a' <= c <= 'f' then Some(c as int - 'a' as int + 10)
    else None
  }

  /** `Buffer.from(s, 'hex')` on well-formed input; `None` for anything else. */
  function FromHex(s: string): Option<seq<byte>>
    decreases |s|
  {
    if |s| == 0 then Some([])
    else if |s| == 1 then None
    else match (HexValue(s[0]), HexValue(s[1]), FromHex(s[2..]))
      case (Some(hi), Some(lo), Some(rest)) =>
        if hi < 16 && lo < 16 then Some([hi * 16 + lo] + rest) else None
      case _ => None
  }

  lemma HexDigitValue(d: nat)
    requires d < 16
    ensures HexValue(HexDigits[d]) == Some(d)
  {
  }

  /** The two digits written for a byte read back as that byte. */
  lemma HexByteValue(b: byte)
    ensures HexValue(HexDigits[b / 16]) == Some(b / 16) && HexValue(HexDigits[b % 16]) == Some(b % 16)
    ensures b / 16 < 16 && (b / 16) * 16 + b % 16 == b
  {
    HexDigitValue(b / 16);
    HexDigitValue(b % 16);
  }

  lemma {:induction false} HexRoundTrip(bs: seq<byte>)
    ensures FromHex(Hex(bs)) == Some(bs)
  {
    if |bs| > 0 {
      var h, t := Hex(bs), Hex(bs[1..]);
      var hi, lo := bs[0] / 16, bs[0] % 16;
      assert h == [HexDigits[hi], HexDigits[lo]] + t;
      assert h[0] == HexDigits[hi] && h[1] == HexDigits[lo] && h[2..] == t;
      HexRoundTrip(bs[1..]);
      HexByteValue(bs[0]);
      assert FromHex(h) == Some([bs[0]] + bs[1..]);
      assert bs == [bs[0]] + bs[1..];
    }
  }

  /** `buf.toString('ascii')` of the `buffer` package: each byte with its top bit cleared. */
  function AsciiDecode(bs: seq<byte>): (r: string)
  {
    seq(|bs|, i requires 0 <= i < |bs| => (bs[i] % 0x80) as char)
  }

  /** `Buffer.from(s, 'ascii')` restricted to 7-bit text. */
  function AsciiEncode(s: string): (r: seq<byte>)
    requires forall i | 0 <= i < |s| :: s[i] as int < 0x80
  {
    seq(|s|, i requires 0 <= i < |s| => s[i] as int)
  }

  /** Decoding loses nothing on 7-bit bytes, and every decoded string is 7-bit. */
  lemma AsciiRoundTrip(bs: seq<byte>)
    requires forall i | 0 <= i < |bs| :: bs[i] < 0x80
    ensures forall i | 0 <= i < |AsciiDecode(bs)| :: AsciiDecode(bs)[i] as int < 0x80
    ensures AsciiEncode(AsciiDecode(bs)) == bs
  {
  }
}
