/** `TransportManager` (src/LedgerUtils.ts:58-225): the channel registry, the public-key
    cache, and the two device operations, as a state record with explicit transitions.
    The process-wide `baseTransportManager` singleton becomes a state passed in and out. */
module TransportManager {
  import opened Wrappers
  import opened Errors
  import opened Bytes
  import opened Seqs
  import opened TransportPaths
  import opened KeyCache
  import opened Apdu
  import opened Framing
  import opened SignatureCodec
  import opened Canonicalizer

  /** `getTransport`'s default timeout, used by `getPublicKey`. */
  const GetPublicKeyTimeout: nat := 60000
  /** The timeout `signTransaction` passes: five minutes. */
  const SignTransactionTimeout: nat := 60000 * 5

  predicate IsKnownKind(kind: string) {
    kind == "usb" || kind == "bluetooth"
  }

  /** `TransportCacheMap`: one optional open channel per known kind. */
  datatype TransportCacheMap = TransportCacheMap(bluetooth: Option<Channel>, usb: Option<Channel>)

  /** `transportMap[kind]`, for any kind; unknown kinds never have a slot. */
  function Slot(tm: TransportCacheMap, kind: string): Option<Channel>
  {
    if kind == "usb" then tm.usb else if kind == "bluetooth" then tm.bluetooth else None
  }

  function SetSlot(tm: TransportCacheMap, kind: string, v: Option<Channel>): (r: TransportCacheMap)
    requires IsKnownKind(kind)
    ensures Slot(r, kind) == v
    ensures forall other | other != kind :: Slot(r, other) == Slot(tm, other)
  {
    if kind == "usb" then tm.(usb := v) else tm.(bluetooth := v)
  }

  datatype Manager = Manager(transportMap: TransportCacheMap, publicKeyMap: Cache)

  /** A manager as the rest of the model starts it: no channel and an EMPTY key map. */
  const Initial: Manager := Manager(TransportCacheMap(None, None), [])

  predicate Valid(m: Manager) {
    WellFormed(m.publicKeyMap)
  }

  /** The collaborators the manager calls, as functions:
      - `create`: `TransportWebUSB.create(timeout)` / `BluetoothTransport.create(timeout)`;
      - `send`: `transport.send(cla, ins, p1, p2, data)`;
      - `parsePath`: `bippath.fromString(path).toPathArray()`;
      - `deserialize`, `encodeField`: the blockchain library;
      - `signatureFromRaw`: `ecc.Signature.from(sig).toString()`. */
  datatype Env = Env(
    create: (string, nat) -> Result<Channel, Error>,
    send: Send,
    parsePath: string -> Result<seq<uint32>, Error>,
    deserialize: Deserializer,
    encodeField: FieldEncoder,
    signatureFromRaw: string -> string)

  /** The state after an operation, whether or not it succeeded, and its outcome. */
  datatype Step<T> = Step(state: Manager, result: Result<T, Error>)

  /** `getTransport` (lines 65-91): reuse the open channel of that kind, otherwise create one
      for `usb` or `bluetooth` and register it; any other kind throws. */
  function GetTransport(m: Manager, kind: string, timeout: nat, env: Env): (s: Step<Channel>)
    ensures s.state.publicKeyMap == m.publicKeyMap
    ensures forall other | other != kind :: Slot(s.state.transportMap, other) == Slot(m.transportMap, other)
    ensures Slot(m.transportMap, kind).Some? ==> s == Step(m, Success(Slot(m.transportMap, kind).value))
    ensures !IsKnownKind(kind) ==> s == Step(m, Failure(UnknownTransportType))
    ensures s.result.Success? ==> Slot(s.state.transportMap, kind) == Some(s.result.value)
    ensures s.result.Failure? ==> s.state == m
  {
    match Slot(m.transportMap, kind)
    case Some(ch) => Step(m, Success(ch))
    case None =>
      if !IsKnownKind(kind) then Step(m, Failure(UnknownTransportType))
      else match env.create(kind, timeout)
        case Failure(e) => Step(m, Failure(e))
        case Success(ch) => Step(m.(transportMap := SetSlot(m.transportMap, kind, Some(ch))), Success(ch))
  }

  /** A kind with an open channel never gets a second one: the result is independent of
      what creating a channel would do. */
  lemma GetTransportReuses(m: Manager, kind: string, timeout: nat, env1: Env, env2: Env)
    requires Slot(m.transportMap, kind).Some?
    ensures GetTransport(m, kind, timeout, env1) == GetTransport(m, kind, timeout, env2)
         == Step(m, Success(Slot(m.transportMap, kind).value))
  {
  }

  /** The `disconnect` handler of a `usb` or `bluetooth` channel (lines 73-76, 81-84):
      purge that kind's cached keys, then delete its registry slot. */
  function Disconnect(m: Manager, kind: string): Manager
    requires IsKnownKind(kind)
  {
    Manager(SetSlot(m.transportMap, kind, None), ClearKind(m.publicKeyMap, kind))
  }

  /** After a disconnect of `kind`: its slot is empty, its keys are gone, and the other
      kind's slot and keys are as they were. */
  lemma DisconnectEffect(m: Manager, kind: string, key: string)
    requires IsKnownKind(kind) && Valid(m)
    ensures var d := Disconnect(m, kind);
      && Valid(d)
      && Slot(d.transportMap, kind).None?
      && (forall other | other != kind :: Slot(d.transportMap, other) == Slot(m.transportMap, other))
      && Lookup(d.publicKeyMap, key) == if KindOfKey(key) == Some(kind) then None else Lookup(m.publicKeyMap, key)
  {
    ClearKindWellFormed(m.publicKeyMap, kind);
    ClearKindLookup(m.publicKeyMap, kind, key);
  }

  /** `getPublicKey` (lines 117-154). The path is parsed inside a `setTimeout` callback, so
      a path `bippath` rejects throws out of the timer and the promise never settles. */
  function GetPublicKey(m: Manager, tpp: TransportPathPair, requestPermission: bool, env: Env): Step<string>
  {
    var t := GetTransport(m, tpp.transportType, GetPublicKeyTimeout, env);
    match t.result
    case Failure(e) => Step(t.state, Failure(e))
    case Success(channel) =>
      match env.parsePath(tpp.path)
      case Failure(_) => Step(t.state, Failure(Unsettled))
      case Success(paths) =>
        match env.send(channel, [], GetPublicKeyCommand(requestPermission, paths))
        case Failure(e) => Step(t.state, Failure(e))
        case Success(response) => Step(t.state, Success(AsciiDecode(ParsePublicKeyResponse(response))))
  }

  /** A successful derivation: the channel comes from `getTransport`, the single command
      sent asks to confirm exactly when `requestPermission` is set and carries a path
      prefix the device reads back as the parsed path, and the key returned is the ASCII
      text of the address segment of the reply. */
  lemma GetPublicKeyDerives(m: Manager, tpp: TransportPathPair, requestPermission: bool, env: Env,
                            paths: seq<uint32>, publicKey: seq<byte>, address: seq<byte>, tail: seq<byte>)
    requires GetTransport(m, tpp.transportType, GetPublicKeyTimeout, env).result.Success?
    requires env.parsePath(tpp.path) == Success(paths)
    requires |paths| < 0x100 && |publicKey| < 0x100 && |address| < 0x100
    requires env.send(GetTransport(m, tpp.transportType, GetPublicKeyTimeout, env).result.value, [],
                      GetPublicKeyCommand(requestPermission, paths))
          == Success(PublicKeyResponse(publicKey, address, tail))
    ensures var cmd := GetPublicKeyCommand(requestPermission, paths);
      && cmd.cla == CLA && cmd.ins == INS_GET_PUBLIC_KEY
      && (cmd.p1 == P1_CONFIRM <==> requestPermission)
      && ReadPathPrefix(cmd.data) == Some((paths, []))
    ensures GetPublicKey(m, tpp, requestPermission, env)
         == Step(GetTransport(m, tpp.transportType, GetPublicKeyTimeout, env).state, Success(AsciiDecode(address)))
  {
    PathPrefixRoundTrip(paths, []);
    assert PathPrefix(paths) + [] == PathPrefix(paths);
    PublicKeyResponseRoundTrip(publicKey, address, tail);
  }

  /** A path `bippath` rejects throws inside the timer callback: the promise never
      settles, and only the channel `getTransport` opened remains. */
  lemma GetPublicKeyUnparsablePath(m: Manager, tpp: TransportPathPair, requestPermission: bool, env: Env)
    requires GetTransport(m, tpp.transportType, GetPublicKeyTimeout, env).result.Success?
    requires env.parsePath(tpp.path).Failure?
    ensures GetPublicKey(m, tpp, requestPermission, env)
         == Step(GetTransport(m, tpp.transportType, GetPublicKeyTimeout, env).state, Failure(Unsettled))
  {
  }

  /** `getPublicKeyCached` (lines 107-115): a non-empty cached key is returned as it is;
      otherwise the key is derived on the device and stored under `"kind:path"`. */
  function GetPublicKeyCached(m: Manager, tpp: TransportPathPair, requestPermission: bool, env: Env): Step<string>
  {
    var key := TransportPathPairToString(tpp);
    if IsHit(m.publicKeyMap, key) then Step(m, Success(Lookup(m.publicKeyMap, key).value))
    else
      var s := GetPublicKey(m, tpp, requestPermission, env);
      match s.result
      case Failure(_) => s
      case Success(pk) => Step(s.state.(publicKeyMap := Store(s.state.publicKeyMap, key, pk)), s.result)
  }

  /** A hit answers from the cache: same state, the cached value, whatever the device
      would have done, so no exchange takes place. */
  lemma CachedHit(m: Manager, tpp: TransportPathPair, requestPermission: bool, env1: Env, env2: Env)
    requires IsHit(m.publicKeyMap, TransportPathPairToString(tpp))
    ensures GetPublicKeyCached(m, tpp, requestPermission, env1)
         == GetPublicKeyCached(m, tpp, requestPermission, env2)
         == Step(m, Success(Lookup(m.publicKeyMap, TransportPathPairToString(tpp)).value))
  {
  }

  /** On a miss the derived key is stored under `"kind:path"`, every other key keeps its
      value, and the registry is what `getTransport` left. A failed miss stores nothing. */
  lemma CachedMiss(m: Manager, tpp: TransportPathPair, requestPermission: bool, env: Env, k: string)
    requires !IsHit(m.publicKeyMap, TransportPathPairToString(tpp))
    ensures var s := GetPublicKeyCached(m, tpp, requestPermission, env);
      var key := TransportPathPairToString(tpp);
      && s.state.transportMap == GetTransport(m, tpp.transportType, GetPublicKeyTimeout, env).state.transportMap
      && (s.result.Success? ==> Lookup(s.state.publicKeyMap, key) == Some(s.result.value))
      && (s.result.Failure? ==> s.state.publicKeyMap == m.publicKeyMap)
      && (k != key ==> Lookup(s.state.publicKeyMap, k) == Lookup(m.publicKeyMap, k))
  {
    var key := TransportPathPairToString(tpp);
    var s := GetPublicKey(m, tpp, requestPermission, env);
    if s.result.Success? {
      StoreLookup(s.state.publicKeyMap, key, s.result.value, key);
      StoreLookup(s.state.publicKeyMap, key, s.result.value, k);
    }
  }

  /** The cache lookup never loses a trusted (non-empty) entry, leaves every other key
      alone, and keeps the cache well formed. */
  lemma CachedPreserves(m: Manager, tpp: TransportPathPair, requestPermission: bool, env: Env, k: string)
    requires Valid(m)
    ensures var s := GetPublicKeyCached(m, tpp, requestPermission, env);
      && Valid(s.state)
      && (IsHit(m.publicKeyMap, k) || k != TransportPathPairToString(tpp) ==> Lookup(s.state.publicKeyMap, k) == Lookup(m.publicKeyMap, k))
      && (s.result.Success? ==> Lookup(s.state.publicKeyMap, TransportPathPairToString(tpp)) == Some(s.result.value))
  {
    var key := TransportPathPairToString(tpp);
    assert key[|tpp.transportType|] == ':';
    if !IsHit(m.publicKeyMap, key) {
      CachedMiss(m, tpp, requestPermission, env, k);
      var s := GetPublicKey(m, tpp, requestPermission, env);
      if s.result.Success? {
        StoreWellFormed(s.state.publicKeyMap, key, s.result.value);
      }
    }
  }

  /** A cached key is trusted only while its kind stays connected: after a disconnect of
      that kind, the next lookup of a pair of that kind misses, opens a new channel with
      `create(kind, 60000)`, and returns what a fresh derivation returns, storing it. */
  lemma RederiveAfterDisconnect(m: Manager, tpp: TransportPathPair, requestPermission: bool, env: Env)
    requires Valid(m) && IsKnownKind(tpp.transportType)
    ensures var d := Disconnect(m, tpp.transportType);
      var s := GetPublicKeyCached(d, tpp, requestPermission, env);
      && !IsHit(d.publicKeyMap, TransportPathPairToString(tpp))
      && GetTransport(d, tpp.transportType, GetPublicKeyTimeout, env).result
         == env.create(tpp.transportType, GetPublicKeyTimeout)
      && s.result == GetPublicKey(d, tpp, requestPermission, env).result
      && (s.result.Success? ==> Lookup(s.state.publicKeyMap, TransportPathPairToString(tpp)) == Some(s.result.value))
  {
    var kind := tpp.transportType;
    var key := TransportPathPairToString(tpp);
    var d := Disconnect(m, kind);
    assert ':' !in kind;
    ParseOfPrinted(kind, tpp.path);
    assert KindOfKey(key) == Some(kind);
    DisconnectEffect(m, kind, key);
    CachedMiss(d, tpp, requestPermission, env, key);
  }

  /** The string `convertSignatures(v + r + s)` yields for a device reply: the canonical
      form of the 130 hex digits when the reply holds at least 65 bytes, otherwise the
      shorter hex text unchanged. */
  function ConvertedSignature(response: seq<byte>, fromRaw: string -> string): (r: string)
    ensures ConvertSignatures(JsString(SignatureHex(response)), fromRaw) == [JsString(r)]
    ensures |response| >= 65 ==> r == fromRaw(Hex(response[..65]))
    ensures |response| < 65 ==> r == Hex(response)
  {
    var hex := SignatureHex(response);
    ConvertSingleString(hex, fromRaw);
    assert |response| < 65 ==> response[..|response|] == response;
    ConvertSignatures(JsString(hex), fromRaw)[0].s
  }

  /** `signTransaction` (lines 159-224): a `null` identity throws at once; otherwise get the
      channel, parse the path, canonicalize, frame, exchange, and convert the last reply. */
  function SignTransaction(m: Manager, tpp: Option<TransportPathPair>, chainId: string, serializedTransaction: seq<byte>, env: Env)
    : Step<seq<string>>
  {
    match tpp
    case None => Step(m, Failure(NullIdentity))
    case Some(pair) =>
      var t := GetTransport(m, pair.transportType, SignTransactionTimeout, env);
      match t.result
      case Failure(e) => Step(t.state, Failure(e))
      case Success(channel) =>
        match env.parsePath(pair.path)
        case Failure(e) => Step(t.state, Failure(e))
        case Success(paths) =>
          match Serialize(chainId, serializedTransaction, env.deserialize, env.encodeField)
          case Failure(e) => Step(t.state, Failure(e))
          case Success(raw) =>
            match Frames(paths, raw)
            case Failure(e) => Step(t.state, Failure(e))
            case Success(frames) =>
              match Exchange(channel, frames, env.send)
              case Failure(e) => Step(t.state, Failure(e))
              case Success(response) => Step(t.state, Success([ConvertedSignature(response, env.signatureFromRaw)]))
  }

  /** Signing touches only the registry, never the key cache; a `null` identity fails
      without any effect; and a success is exactly one signature, obtained by sending the
      canonical payload of the transaction in frames that reassemble it, over the channel
      registered for the identity's kind, and converting the reply to the last frame. */
  lemma SignTransactionEffect(m: Manager, tpp: Option<TransportPathPair>, chainId: string, serializedTransaction: seq<byte>, env: Env)
    ensures var s := SignTransaction(m, tpp, chainId, serializedTransaction, env);
      && s.state.publicKeyMap == m.publicKeyMap
      && (tpp.None? ==> s == Step(m, Failure(NullIdentity)))
      && (s.result.Success? ==>
            && tpp.Some?
            && Slot(s.state.transportMap, tpp.value.transportType).Some?
            && env.parsePath(tpp.value.path).Success?
            && Serialize(chainId, serializedTransaction, env.deserialize, env.encodeField).Success?
            && var channel := Slot(s.state.transportMap, tpp.value.transportType).value;
               var paths := env.parsePath(tpp.value.path).value;
               var raw := Serialize(chainId, serializedTransaction, env.deserialize, env.encodeField).value;
               && Frames(paths, raw).Success?
               && 0 < |Frames(paths, raw).value|
               && Flatten(FramePayloads(|paths|, Frames(paths, raw).value)) == raw
               && Exchange(channel, Frames(paths, raw).value, env.send).Success?
               && s.result.value == [ConvertedSignature(Exchange(channel, Frames(paths, raw).value, env.send).value, env.signatureFromRaw)])
  {
    var s := SignTransaction(m, tpp, chainId, serializedTransaction, env);
    if s.result.Success? {
      var pair := tpp.value;
      var paths := env.parsePath(pair.path).value;
      var raw := Serialize(chainId, serializedTransaction, env.deserialize, env.encodeField).value;
      SerializeLayout(chainId, serializedTransaction, env.deserialize, env.encodeField);
      FramesLayout(paths, raw);
    }
  }

  /** The part of `SignTransactionEffect` a caller looping over keys needs: the cache is
      untouched, `null` fails at once, and a success is a single signature. */
  lemma SignTransactionShape(m: Manager, tpp: Option<TransportPathPair>, chainId: string, serializedTransaction: seq<byte>, env: Env)
    ensures var s := SignTransaction(m, tpp, chainId, serializedTransaction, env);
      && s.state.publicKeyMap == m.publicKeyMap
      && (tpp.None? ==> s == Step(m, Failure(NullIdentity)))
      && (s.result.Success? ==> tpp.Some? && |s.result.value| == 1)
  {
    SignTransactionEffect(m, tpp, chainId, serializedTransaction, env);
  }
}
