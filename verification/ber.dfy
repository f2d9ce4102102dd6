/** Octet-string elements of the Basic Encoding Rules, as the canonical payload uses them:
    identifier octet 0x04 (universal class, primitive, tag number 4), a definite length
    (ITU-T X.690 section 8.1.3) and the value octets. */
module Ber {
  import opened Wrappers
  import opened Bytes
  import opened Seqs

  const OctetStringTag: byte := 0x04

  /** X.690 section 8.1.3.4: short form below 128. Section 8.1.3.5: otherwise 0x80 plus
      the number of length octets, then the length in the fewest big-endian octets;
      at most 126 of them, since 0xFF is reserved. */
  function EncodeLength(n: nat): Option<seq<byte>>
  {
    if n < 0x80 then Some([n])
    else
      var octets := MinimalBigEndian(n);
      if |octets| <= 126 then Some([0x80 + |octets|] + octets) else None
  }

  /** Reads a definite length: the length and how many octets it took. */
  function DecodeLength(bs: seq<byte>): (r: Option<(nat, nat)>)
    ensures r.Some? ==> 1 <= r.value.1 <= |bs|
  {
    if |bs| == 0 then None
    else if bs[0] < 0x80 then Some((bs[0], 1))
    else
      var k := bs[0] - 0x80;
      if k == 0 || k == 127 || 1 + k > |bs| then None
      else Some((FromBigEndian(bs[1..1 + k]), 1 + k))
  }

  lemma LengthRoundTrip(n: nat, rest: seq<byte>)
    requires EncodeLength(n).Some?
    ensures DecodeLength(EncodeLength(n).value + rest) == Some((n, |EncodeLength(n).value|))
  {
    if n >= 0x80 {
      var octets := MinimalBigEndian(n);
      MinimalBigEndianRoundTrip(n);
      var bs := EncodeLength(n).value + rest;
      assert bs[1..1 + |octets|] == octets;
    }
  }

  /** `writer.writeBuffer(value, Ber.OctetString)`: one tag-length-value element. */
  function OctetString(value: seq<byte>): Option<seq<byte>>
  {
    match EncodeLength(|value|)
    case None => None
    case Some(len) => Some([OctetStringTag] + len + value)
  }

  /** `writer.buffer` after writing every value in order. */
  function WriteOctetStrings(values: seq<seq<byte>>): Option<seq<byte>>
  {
    if |values| == 0 then Some([])
    else match (OctetString(values[0]), WriteOctetStrings(values[1..]))
      case (Some(head), Some(tail)) => Some(head + tail)
      case _ => None
  }

  /** How the device firmware walks the elements back out. */
  function ReadOctetStrings(bs: seq<byte>): Option<seq<seq<byte>>>
    decreases |bs|
  {
    if |bs| == 0 then Some([])
    else if bs[0] != OctetStringTag then None
    else match DecodeLength(bs[1..])
      case None => None
      case Some((len, used)) =>
        if 1 + used + len > |bs| then None
        else match ReadOctetStrings(bs[1 + used + len..])
          case None => None
          case Some(rest) => Some([bs[1 + used..1 + used + len]] + rest)
  }

  /** Writing then reading the elements gives back exactly the values written, in order:
      the encoding is self-delimiting. */
  lemma {:induction false} OctetStringsRoundTrip(values: seq<seq<byte>>)
    requires WriteOctetStrings(values).Some?
    ensures ReadOctetStrings(WriteOctetStrings(values).value) == Some(values)
  {
    if |values| > 0 {
      var len := EncodeLength(|values[0]|).value;
      var tail := WriteOctetStrings(values[1..]).value;
      var bs := WriteOctetStrings(values).value;
      assert bs == [OctetStringTag] + len + values[0] + tail;
      assert bs[1..] == len + (values[0] + tail);
      LengthRoundTrip(|values[0]|, values[0] + tail);
      assert bs[1 + |len|..1 + |len| + |values[0]|] == values[0];
      assert bs[1 + |len| + |values[0]|..] == tail;
      OctetStringsRoundTrip(values[1..]);
      assert values == [values[0]] + values[1..];
    }
  }

  /** Each element costs at least two octets, so writing `k` values gives at least `2k`. */
  lemma {:induction false} WrittenLength(values: seq<seq<byte>>)
    requires WriteOctetStrings(values).Some?
    ensures |WriteOctetStrings(values).value| >= 2 * |values|
  {
    if |values| > 0 {
      WrittenLength(values[1..]);
    }
  }
}
