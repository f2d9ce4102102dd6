/** Device commands: the `LEDGER_CODES` constants, the path prefix, and the public-key
    response layout (src/LedgerUtils.ts:15-24, 117-154). A command has the ISO/IEC 7816-4
    command-APDU shape CLA, INS, P1, P2 and a data field. */
module Apdu {
  import opened Wrappers
  import opened Bytes

  const CLA: byte := 0xD4
  const INS_GET_PUBLIC_KEY: byte := 0x02
  const INS_SIGN: byte := 0x04
  const INS_GET_APP_CONFIGURATION: byte := 0x06
  const P1_CONFIRM: byte := 0x01
  const P1_NON_CONFIRM: byte := 0x00
  const P1_FIRST: byte := 0x00
  const P1_MORE: byte := 0x80

  /** An open transport (WebUSB or Web Bluetooth) as an opaque handle. */
  datatype Channel = Channel(id: nat)

  datatype Command = Command(cla: byte, ins: byte, p1: byte, p2: byte, data: seq<byte>)

  /** The path components, each as four big-endian bytes, one after the other. */
  function BigEndianPath(paths: seq<uint32>): (r: seq<byte>)
    ensures |r| == 4 * |paths|
  {
    if |paths| == 0 then [] else BigEndian32(paths[0]) + BigEndianPath(paths[1..])
  }

  /** The buffer of lines 124-128 and 189-193: a count byte (`buffer[0] = paths.length`
      stores the count modulo 256), then every component as a big-endian `uint32`. */
  function PathPrefix(paths: seq<uint32>): (r: seq<byte>)
    ensures |r| == 1 + 4 * |paths|
  {
    [|paths| % 0x100] + BigEndianPath(paths)
  }

  /** How the device reads `count` components back. */
  function ReadComponents(bs: seq<byte>, count: nat): Option<(seq<uint32>, seq<byte>)>
  {
    if count == 0 then Some(([], bs))
    else if |bs| < 4 then None
    else
      var x := FromBigEndian(bs[..4]);
      if x >= 0x1_0000_0000 then None
      else match ReadComponents(bs[4..], count - 1)
        case None => None
        case Some((rest, tail)) => Some(([x as uint32] + rest, tail))
  }

  /** How the device reads a path prefix off the front of the first frame. */
  function ReadPathPrefix(bs: seq<byte>): Option<(seq<uint32>, seq<byte>)>
  {
    if |bs| == 0 then None else ReadComponents(bs[1..], bs[0])
  }

  lemma {:induction false} ReadComponentsRoundTrip(paths: seq<uint32>, tail: seq<byte>)
    ensures ReadComponents(BigEndianPath(paths) + tail, |paths|) == Some((paths, tail))
  {
    if |paths| > 0 {
      var bs := BigEndianPath(paths) + tail;
      assert bs[..4] == BigEndian32(paths[0]);
      assert bs[4..] == BigEndianPath(paths[1..]) + tail;
      assert FromBigEndian(bs[..4]) == paths[0];
      ReadComponentsRoundTrip(paths[1..], tail);
      assert ReadComponents(bs, |paths|) == Some(([paths[0]] + paths[1..], tail));
      assert paths == [paths[0]] + paths[1..];
    } else {
      assert BigEndianPath(paths) + tail == tail;
    }
  }

  /** A path of fewer than 256 components is read back exactly, and the bytes after the
      prefix are untouched. */
  lemma PathPrefixRoundTrip(paths: seq<uint32>, tail: seq<byte>)
    requires |paths| < 0x100
    ensures ReadPathPrefix(PathPrefix(paths) + tail) == Some((paths, tail))
  {
    var bs := PathPrefix(paths) + tail;
    assert bs[1..] == BigEndianPath(paths) + tail;
    ReadComponentsRoundTrip(paths, tail);
  }

  /** The "get public key" command (lines 130-137): P1 asks the user to confirm or not. */
  function GetPublicKeyCommand(requestPermission: bool, paths: seq<uint32>): Command
  {
    Command(CLA, INS_GET_PUBLIC_KEY, if requestPermission then P1_CONFIRM else P1_NON_CONFIRM,
            P1_NON_CONFIRM, PathPrefix(paths))
  }

  /** The "sign" command carrying frame `index` (lines 203-210). */
  function SignCommand(index: nat, data: seq<byte>): (r: Command)
    ensures r.p1 == P1_FIRST <==> index == 0
    ensures r.p1 == P1_MORE <==> index > 0
  {
    Command(CLA, INS_SIGN, if index == 0 then P1_FIRST else P1_MORE, P1_NON_CONFIRM, data)
  }

  /** Lines 140-148: skip the length-prefixed public key, keep the length-prefixed address.
      Reads past the end give `undefined`, which `slice` turns into an empty range. */
  function ParsePublicKeyResponse(response: seq<byte>): (r: seq<byte>)
    ensures |r| < 0x100
  {
    if |response| == 0 then []
    else
      var publicKeyLength := response[0];
      if 1 + publicKeyLength >= |response| then []
      else
        var addressLength := response[1 + publicKeyLength];
        Slice(response, 1 + publicKeyLength + 1, 1 + publicKeyLength + 1 + addressLength)
  }

  /** The device's reply layout: length-prefixed key, length-prefixed address, then
      anything (status word, chain code). */
  function PublicKeyResponse(publicKey: seq<byte>, address: seq<byte>, tail: seq<byte>): seq<byte>
    requires |publicKey| < 0x100 && |address| < 0x100
  {
    [|publicKey|] + publicKey + [|address|] + address + tail
  }

  /** The parser recovers exactly the address segment of a well-formed reply. */
  lemma PublicKeyResponseRoundTrip(publicKey: seq<byte>, address: seq<byte>, tail: seq<byte>)
    requires |publicKey| < 0x100 && |address| < 0x100
    ensures ParsePublicKeyResponse(PublicKeyResponse(publicKey, address, tail)) == address
  {
    var resp := PublicKeyResponse(publicKey, address, tail);
    assert resp[1 + |publicKey|] == |address|;
    assert resp[2 + |publicKey|..2 + |publicKey| + |address|] == address;
  }
}
