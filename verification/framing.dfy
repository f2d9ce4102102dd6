/** Splitting the canonical payload into device frames and exchanging them
    (src/LedgerUtils.ts:178-223, 246-259). */
module Framing {
  import opened Wrappers
  import opened Errors
  import opened Bytes
  import opened Seqs
  import opened Apdu

  /** The largest frame the device accepts. */
  const FrameSize: nat := 150

  /** The most path components whose prefix still fits in the first frame with at least
      one payload byte: 1 + 4 * 37 = 149. */
  const MaxPathComponents: nat := 37

  /** One iteration of the loop at lines 180-200 per call: the frame cut at `offset`,
      then the frames after it. */
  function ChunkLoop(paths: seq<uint32>, raw: seq<byte>, offset: nat): seq<seq<byte>>
    requires |paths| <= MaxPathComponents && offset <= |raw|
    decreases |raw| - offset
  {
    if offset == |raw| then []
    else
      var maxChunkSize: int := if offset == 0 then FrameSize - 1 - |paths| * 4 else FrameSize;
      var chunkSize: int := if offset + maxChunkSize > |raw| then |raw| - offset else maxChunkSize;
      var frame := if offset == 0 then PathPrefix(paths) + raw[offset..offset + chunkSize]
                   else raw[offset..offset + chunkSize];
      [frame] + ChunkLoop(paths, raw, offset + chunkSize)
  }

  /** The frames `signTransaction` builds. An empty payload never enters the loop; with 38
      or more path components the first frame's buffer is 150 bytes long and the write of
      component 37 at byte 149 throws a `RangeError`. */
  function Frames(paths: seq<uint32>, raw: seq<byte>): Result<seq<seq<byte>>, Error>
  {
    if |raw| == 0 then Success([])
    else if |paths| > MaxPathComponents then Failure(IndexOutOfRange)
    else Success(ChunkLoop(paths, raw, 0))
  }

  /** The payload bytes a frame list carries: every frame, the first without its
      `1 + 4n`-byte path prefix. */
  function FramePayloads(n: nat, frames: seq<seq<byte>>): seq<seq<byte>>
  {
    if |frames| == 0 then []
    else [frames[0][Min(1 + 4 * n, |frames[0]|)..]] + frames[1..]
  }

  function CeilDiv(a: nat, b: nat): nat
    requires b > 0
  {
    (a + b - 1) / b
  }

  /** The frames after the first: full 150-byte frames of raw payload and a non-empty
      final remainder, which together are exactly the rest of the payload. */
  lemma {:induction false} LaterFrames(paths: seq<uint32>, raw: seq<byte>, offset: nat)
    requires |paths| <= MaxPathComponents && 0 < offset <= |raw|
    ensures var fs := ChunkLoop(paths, raw, offset);
      && Flatten(fs) == raw[offset..]
      && |fs| == CeilDiv(|raw| - offset, FrameSize)
      && (forall i | 0 <= i < |fs| :: 0 < |fs[i]| <= FrameSize)
      && (forall i | 0 <= i < |fs| - 1 :: |fs[i]| == FrameSize)
    decreases |raw| - offset
  {
    if offset < |raw| {
      var chunkSize := if offset + FrameSize > |raw| then |raw| - offset else FrameSize;
      var fs := ChunkLoop(paths, raw, offset);
      assert fs == [raw[offset..offset + chunkSize]] + ChunkLoop(paths, raw, offset + chunkSize);
      LaterFrames(paths, raw, offset + chunkSize);
      assert fs[1..] == ChunkLoop(paths, raw, offset + chunkSize);
      assert raw[offset..] == raw[offset..offset + chunkSize] + raw[offset + chunkSize..];
    }
  }

  /** The first frame: the path prefix, then as many payload bytes as fit in the 149 - 4n
      bytes left, or the whole payload when it is shorter. */
  lemma FirstFrame(paths: seq<uint32>, raw: seq<byte>)
    requires 0 < |raw| && |paths| <= MaxPathComponents
    ensures var first := Min(|raw|, FrameSize - 1 - 4 * |paths|);
      && 0 < first
      && ChunkLoop(paths, raw, 0) == [PathPrefix(paths) + raw[..first]] + ChunkLoop(paths, raw, first)
  {
  }

  /** The framing theorem: for a non-empty payload and at most 37 path components, frame 0
      is the path prefix followed by the first `min(L, 149 - 4n)` payload bytes, later frames
      carry raw payload, every frame holds at most 150 bytes, every frame but the last is
      full, and the payload parts reassemble the payload byte for byte. */
  lemma FramesLayout(paths: seq<uint32>, raw: seq<byte>)
    requires 0 < |raw| && |paths| <= MaxPathComponents
    ensures Frames(paths, raw).Success?
    ensures var fs := Frames(paths, raw).value;
      var first := Min(|raw|, FrameSize - 1 - 4 * |paths|);
      && |fs| == 1 + CeilDiv(|raw| - first, FrameSize)
      && fs[0] == PathPrefix(paths) + raw[..first]
      && Flatten(FramePayloads(|paths|, fs)) == raw
      && (forall i | 0 <= i < |fs| :: 0 < |fs[i]| <= FrameSize)
      && (forall i | 0 <= i < |fs| - 1 :: |fs[i]| == FrameSize)
  {
    var n := |paths|;
    var first := Min(|raw|, FrameSize - 1 - 4 * n);
    var fs := ChunkLoop(paths, raw, 0);
    var rest := ChunkLoop(paths, raw, first);
    FirstFrame(paths, raw);
    assert fs[0] == PathPrefix(paths) + raw[..first];
    assert fs[1..] == rest;
    if first == |raw| {
      assert rest == [];
    } else {
      LaterFrames(paths, raw, first);
    }
    assert Flatten(rest) == raw[first..];
    assert |PathPrefix(paths)| == 1 + 4 * n;
    assert fs[0][1 + 4 * n..] == raw[..first];
    assert FramePayloads(n, fs) == [raw[..first]] + rest;
    assert Flatten(FramePayloads(n, fs)) == raw[..first] + Flatten(rest);
    assert raw == raw[..first] + raw[first..];
    assert |fs[0]| == 1 + 4 * n + first;
    forall i | 0 <= i < |fs|
      ensures 0 < |fs[i]| <= FrameSize
    {
      if i > 0 {
        assert fs[i] == rest[i - 1];
      }
    }
    forall i | 0 <= i < |fs| - 1
      ensures |fs[i]| == FrameSize
    {
      if i > 0 {
        assert fs[i] == rest[i - 1];
      }
    }
  }

  /** An empty payload gives no frames at all, whatever the path. */
  lemma EmptyPayloadHasNoFrames(paths: seq<uint32>)
    ensures Frames(paths, []) == Success([])
  {
  }

  /** The frame-building step fails exactly for a non-empty payload and a path of more
      than 37 components. */
  lemma FramesFailure(paths: seq<uint32>, raw: seq<byte>)
    ensures Frames(paths, raw).Failure? <==> 0 < |raw| && |paths| > MaxPathComponents
  {
  }

  // ---- iteratePromises and the exchange ----

  /** `iterate(index, array, result)`: call `callback` on each element in index order,
      appending each result; stop at the first failure. */
  function Iterate<T, R>(arr: seq<T>, callback: (T, nat) -> Result<R, Error>, index: nat, result: seq<R>)
    : (r: Result<seq<R>, Error>)
    requires index <= |arr|
    ensures r.Success? <==> forall i | index <= i < |arr| :: callback(arr[i], i).Success?
    ensures r.Success? ==>
      && |r.value| == |result| + |arr| - index
      && r.value[..|result|] == result
      && forall i | index <= i < |arr| :: r.value[|result| + i - index] == callback(arr[i], i).value
    ensures r.Failure? ==> exists j | index <= j < |arr| ::
      && callback(arr[j], j) == Failure(r.error)
      && forall i | index <= i < j :: callback(arr[i], i).Success?
    decreases |arr| - index
  {
    if index >= |arr| then Success(result)
    else match callback(arr[index], index)
      case Failure(e) => Failure(e)
      case Success(res) => Iterate(arr, callback, index + 1, result + [res])
  }

  /** `iteratePromises(arr, callback)`: the results of calling `callback` on every element
      in order, or the first failure. */
  function IteratePromises<T, R>(arr: seq<T>, callback: (T, nat) -> Result<R, Error>): (r: Result<seq<R>, Error>)
    ensures r.Success? <==> forall i | 0 <= i < |arr| :: callback(arr[i], i).Success?
    ensures r.Success? ==> |r.value| == |arr| && forall i | 0 <= i < |arr| :: r.value[i] == callback(arr[i], i).value
    ensures r.Failure? ==> exists j | 0 <= j < |arr| ::
      && callback(arr[j], j) == Failure(r.error)
      && forall i | 0 <= i < j :: callback(arr[i], i).Success?
  {
    Iterate(arr, callback, 0, [])
  }

  /** The commands that carry the frames, P1 marking the first frame and the rest. */
  function SignCommands(frames: seq<seq<byte>>): (r: seq<Command>)
    ensures |r| == |frames|
    ensures forall i | 0 <= i < |frames| :: r[i] == SignCommand(i, frames[i])
  {
    seq(|frames|, i requires 0 <= i < |frames| => SignCommand(i, frames[i]))
  }

  /** A device exchange: the channel, the commands of this exchange already sent (the
      device's memory of the transaction so far), and the command to send now. */
  type Send = (Channel, seq<Command>, Command) -> Result<seq<byte>, Error>

  /** Lines 202-215: send every frame in index order, keeping only the last response; with
      no frames `response` stays `undefined` and reading it throws. */
  function Exchange(channel: Channel, frames: seq<seq<byte>>, send: Send): Result<seq<byte>, Error>
  {
    var commands := SignCommands(frames);
    match IteratePromises(frames, (data: seq<byte>, i: nat) => send(channel, commands[..Min(i, |commands|)], SignCommand(i, data)))
    case Failure(e) => Failure(e)
    case Success(responses) =>
      if |responses| == 0 then Failure(UndefinedResponse) else Success(responses[|responses| - 1])
  }

  /** The exchange sends frame `i` after exactly the commands of frames `0..i-1`; it succeeds
      only when every send succeeds, and then yields the reply to the last frame; otherwise
      it fails with the first failing send's error. Without frames it fails with the
      `undefined` response. */
  lemma ExchangeOrder(channel: Channel, frames: seq<seq<byte>>, send: Send)
    ensures var r := Exchange(channel, frames, send);
      var cs := SignCommands(frames);
      && (|frames| == 0 ==> r == Failure(UndefinedResponse))
      && (r.Success? <==> 0 < |frames| && forall i | 0 <= i < |frames| :: send(channel, cs[..i], cs[i]).Success?)
      && (r.Success? ==> r.value == send(channel, cs[..|frames| - 1], cs[|frames| - 1]).value)
      && (0 < |frames| && r.Failure? ==> exists j | 0 <= j < |frames| ::
            && send(channel, cs[..j], cs[j]) == Failure(r.error)
            && forall i | 0 <= i < j :: send(channel, cs[..i], cs[i]).Success?)
  {
    var cs := SignCommands(frames);
    var callback := (data: seq<byte>, i: nat) => send(channel, cs[..Min(i, |cs|)], SignCommand(i, data));
    forall i | 0 <= i < |frames|
      ensures callback(frames[i], i) == send(channel, cs[..i], cs[i])
    {
      assert Min(i, |cs|) == i;
      assert cs[i] == SignCommand(i, frames[i]);
    }
    var it := IteratePromises(frames, callback);
    assert Exchange(channel, frames, send) == match it
      case Failure(e) => Failure(e)
      case Success(responses) =>
        if |responses| == 0 then Failure(UndefinedResponse) else Success(responses[|responses| - 1]);
  }

  /** Lines 216-218: `v`, `r` and `s` as hex, concatenated. Slicing past the end of a short
      response yields fewer bytes. */
  function SignatureHex(response: seq<byte>): (r: string)
    ensures r == Hex(response[..Min(65, |response|)])
    ensures FromHex(r) == Some(response[..Min(65, |response|)])
    ensures |r| == 130 <==> |response| >= 65
  {
    var v := Hex(Slice(response, 0, 1));
    var r := Hex(Slice(response, 1, 1 + 32));
    var s := Hex(Slice(response, 1 + 32, 1 + 32 + 32));
    var m := Min(65, |response|);
    assert Slice(response, 0, 1) + Slice(response, 1, 33) + Slice(response, 33, 65) == response[..m];
    HexAppend(Slice(response, 0, 1), Slice(response, 1, 33));
    HexAppend(Slice(response, 0, 1) + Slice(response, 1, 33), Slice(response, 33, 65));
    HexRoundTrip(response[..m]);
    v + r + s
  }
}
