/** `LedgerSignatureProvider` (src/LedgerSignatureProvider.ts): a signer for a list of
    device key slots, working through the shared `TransportManager` state. */
module LedgerSignatureProvider {
  import opened Wrappers
  import opened Errors
  import opened Bytes
  import opened Seqs
  import opened TransportPaths
  import opened KeyCache
  import opened TransportManager
  import opened SignerInterface

  datatype LedgerSignatureProvider = LedgerSignatureProvider(transportPathPairs: seq<TransportPathPair>)

  /** The constructor's argument: absent, a list of `"kind:path"` strings, or a list of pairs. */
  datatype PairsArgument = Missing | Strings(strs: seq<string>) | Pairs(pairs: seq<TransportPathPair>)

  /** `strs.map(stringToTransportPathPair)`: stops at the first string without `:`. */
  function ParseAll(strs: seq<string>): (r: Result<seq<TransportPathPair>, Error>)
    ensures r.Success? <==> forall i | 0 <= i < |strs| :: ':' in strs[i]
    ensures r.Failure? ==> r.error == InvalidTransportPathPair
    ensures r.Success? ==>
      && |r.value| == |strs|
      && forall i | 0 <= i < |strs| :: StringToTransportPathPair(strs[i]) == Success(r.value[i])
  {
    if |strs| == 0 then Success([])
    else match (StringToTransportPathPair(strs[0]), ParseAll(strs[1..]))
      case (Failure(e), _) => Failure(e)
      case (_, Failure(e)) => Failure(e)
      case (Success(head), Success(tail)) => Success([head] + tail)
  }

  /** The constructor (lines 15-25): strings are parsed element by element, pairs are taken
      as given, and a missing or empty list gives no pairs. */
  function New(arg: PairsArgument): (r: Result<LedgerSignatureProvider, Error>)
    ensures arg.Missing? ==> r == Success(LedgerSignatureProvider([]))
    ensures arg.Pairs? ==> r == Success(LedgerSignatureProvider(arg.pairs))
    ensures arg.Strings? ==>
      && (r.Success? <==> forall i | 0 <= i < |arg.strs| :: ':' in arg.strs[i])
      && (r.Failure? ==> r.error == InvalidTransportPathPair)
      && (r.Success? ==>
            && |r.value.transportPathPairs| == |arg.strs|
            && forall i | 0 <= i < |arg.strs| ::
                 StringToTransportPathPair(arg.strs[i]) == Success(r.value.transportPathPairs[i]))
  {
    match arg
    case Missing => Success(LedgerSignatureProvider([]))
    case Pairs(pairs) => Success(LedgerSignatureProvider(pairs))
    case Strings(strs) =>
      if |strs| == 0 then Success(LedgerSignatureProvider([]))
      else match ParseAll(strs)
        case Failure(e) => Failure(e)
        case Success(pairs) => Success(LedgerSignatureProvider(pairs))
  }

  /** The loop of `getAvailableKeys` (lines 31-37): one cached lookup per pair, in order. */
  function KeysFor(m: Manager, pairs: seq<TransportPathPair>, requestPermission: bool, env: Env): Step<seq<string>>
    decreases |pairs|
  {
    if |pairs| == 0 then Step(m, Success([]))
    else
      var s := GetPublicKeyCached(m, pairs[0], requestPermission, env);
      match s.result
      case Failure(e) => Step(s.state, Failure(e))
      case Success(key) =>
        var rest := KeysFor(s.state, pairs[1..], requestPermission, env);
        match rest.result
        case Failure(e) => Step(rest.state, Failure(e))
        case Success(keys) => Step(rest.state, Success([key] + keys))
  }

  function GetAvailableKeys(m: Manager, p: LedgerSignatureProvider, requestPermission: bool, env: Env): Step<seq<string>>
  {
    KeysFor(m, p.transportPathPairs, requestPermission, env)
  }

  /** The lookups keep the cache well formed and never lose a trusted (non-empty) entry. */
  lemma {:induction false} KeysForPreserves(m: Manager, pairs: seq<TransportPathPair>, requestPermission: bool, env: Env, k: string)
    requires Valid(m)
    ensures var s := KeysFor(m, pairs, requestPermission, env);
      && Valid(s.state)
      && (IsHit(m.publicKeyMap, k) ==> Lookup(s.state.publicKeyMap, k) == Lookup(m.publicKeyMap, k))
    decreases |pairs|
  {
    if |pairs| > 0 {
      CachedPreserves(m, pairs[0], requestPermission, env, k);
      var s := GetPublicKeyCached(m, pairs[0], requestPermission, env);
      if s.result.Success? {
        KeysForPreserves(s.state, pairs[1..], requestPermission, env, k);
      }
    }
  }

  /** One key per configured pair, in configuration order, duplicates kept; afterwards every
      non-empty key is the cached value of its pair. */
  lemma {:induction false} KeysForEffect(m: Manager, pairs: seq<TransportPathPair>, requestPermission: bool, env: Env)
    requires Valid(m)
    ensures var s := KeysFor(m, pairs, requestPermission, env);
      && Valid(s.state)
      && (s.result.Success? ==>
            && |s.result.value| == |pairs|
            && forall i | 0 <= i < |pairs| :: s.result.value[i] != "" ==>
                 Lookup(s.state.publicKeyMap, TransportPathPairToString(pairs[i])) == Some(s.result.value[i]))
    decreases |pairs|
  {
    KeysForPreserves(m, pairs, requestPermission, env, "");
    if |pairs| > 0 {
      var key0 := TransportPathPairToString(pairs[0]);
      CachedPreserves(m, pairs[0], requestPermission, env, key0);
      var s := GetPublicKeyCached(m, pairs[0], requestPermission, env);
      if s.result.Success? {
        var rest := KeysFor(s.state, pairs[1..], requestPermission, env);
        KeysForEffect(s.state, pairs[1..], requestPermission, env);
        KeysForPreserves(s.state, pairs[1..], requestPermission, env, key0);
        if rest.result.Success? {
          var keys := [s.result.value] + rest.result.value;
          assert KeysFor(m, pairs, requestPermission, env) == Step(rest.state, Success(keys));
          forall i | 0 <= i < |pairs| && keys[i] != ""
            ensures Lookup(rest.state.publicKeyMap, TransportPathPairToString(pairs[i])) == Some(keys[i])
          {
            if i > 0 {
              assert pairs[i] == pairs[1..][i - 1];
            } else {
              assert IsHit(s.state.publicKeyMap, key0);
            }
          }
        }
      }
    }
  }

  /** When every pair already has a trusted entry, the lookups change nothing, use no
      device, and return the cached keys. */
  lemma {:induction false} KeysForAllHits(m: Manager, pairs: seq<TransportPathPair>, requestPermission: bool, env: Env)
    requires forall i | 0 <= i < |pairs| :: IsHit(m.publicKeyMap, TransportPathPairToString(pairs[i]))
    ensures var s := KeysFor(m, pairs, requestPermission, env);
      && s.state == m
      && s.result.Success?
      && |s.result.value| == |pairs|
      && forall i | 0 <= i < |pairs| :: Lookup(m.publicKeyMap, TransportPathPairToString(pairs[i])) == Some(s.result.value[i])
  {
    if |pairs| > 0 {
      KeysForAllHits(m, pairs[1..], requestPermission, env);
    }
  }

  /** A second `getAvailableKeys` after one that returned only non-empty keys is answered
      entirely from the cache: same keys, same state, whatever the device would do. */
  lemma SecondCallIsCached(m: Manager, p: LedgerSignatureProvider, requestPermission: bool, env: Env, env2: Env)
    requires Valid(m)
    requires GetAvailableKeys(m, p, requestPermission, env).result.Success?
    requires forall i | 0 <= i < |GetAvailableKeys(m, p, requestPermission, env).result.value| ::
      GetAvailableKeys(m, p, requestPermission, env).result.value[i] != ""
    ensures var s := GetAvailableKeys(m, p, requestPermission, env);
      GetAvailableKeys(s.state, p, requestPermission, env2) == s
  {
    var pairs := p.transportPathPairs;
    var s := GetAvailableKeys(m, p, requestPermission, env);
    KeysForEffect(m, pairs, requestPermission, env);
    KeysForAllHits(s.state, pairs, requestPermission, env2);
    var s2 := GetAvailableKeys(s.state, p, requestPermission, env2);
    assert s2.result.value == s.result.value by {
      forall i | 0 <= i < |pairs|
        ensures s2.result.value[i] == s.result.value[i]
      {
        var key := TransportPathPairToString(pairs[i]);
        assert Lookup(s.state.publicKeyMap, key) == Some(s2.result.value[i]);
      }
    }
  }

  /** The loop of `sign` (lines 45-49): for each key, reverse lookup then `signTransaction`,
      none skipped; a `null` lookup is passed on and fails there. */
  function SignEach(m: Manager, keys: seq<string>, chainId: string, serializedTransaction: seq<byte>, env: Env): Step<seq<string>>
    requires Valid(m)
    decreases |keys|
  {
    if |keys| == 0 then Step(m, Success([]))
    else
      var tpp := FindIdentityForKey(m.publicKeyMap, keys[0]);
      var s := SignTransaction(m, tpp, chainId, serializedTransaction, env);
      SignTransactionShape(m, tpp, chainId, serializedTransaction, env);
      match s.result
      case Failure(e) => Step(s.state, Failure(e))
      case Success(newSigs) =>
        var rest := SignEach(s.state, keys[1..], chainId, serializedTransaction, env);
        match rest.result
        case Failure(e) => Step(rest.state, Failure(e))
        case Success(more) => Step(rest.state, Success(newSigs + more))
  }

  /** Signing never alters the key cache. */
  lemma {:induction false} SignEachKeepsCache(m: Manager, keys: seq<string>, chainId: string, serializedTransaction: seq<byte>, env: Env)
    requires Valid(m)
    ensures SignEach(m, keys, chainId, serializedTransaction, env).state.publicKeyMap == m.publicKeyMap
    decreases |keys|
  {
    if |keys| > 0 {
      var tpp := FindIdentityForKey(m.publicKeyMap, keys[0]);
      SignTransactionShape(m, tpp, chainId, serializedTransaction, env);
      var s := SignTransaction(m, tpp, chainId, serializedTransaction, env);
      if s.result.Success? {
        SignEachKeepsCache(s.state, keys[1..], chainId, serializedTransaction, env);
      }
    }
  }

  /** A key with no cached identity makes the call fail, with no effect, when its turn
      comes: `null` goes to `signTransaction` and is not skipped. */
  lemma SignEachNullIdentity(m: Manager, keys: seq<string>, chainId: string, serializedTransaction: seq<byte>, env: Env)
    requires Valid(m)
    requires 0 < |keys| && FindIdentityForKey(m.publicKeyMap, keys[0]).None?
    ensures SignEach(m, keys, chainId, serializedTransaction, env) == Step(m, Failure(NullIdentity))
  {
  }

  /** One step of the signing loop: a success of the whole loop is a success of the first
      key's `signTransaction` followed by a success of the loop on the rest. */
  lemma SignEachStep(m: Manager, keys: seq<string>, chainId: string, serializedTransaction: seq<byte>, env: Env)
    requires Valid(m) && 0 < |keys|
    ensures var tpp := FindIdentityForKey(m.publicKeyMap, keys[0]);
      var s := SignTransaction(m, tpp, chainId, serializedTransaction, env);
      var r := SignEach(m, keys, chainId, serializedTransaction, env);
      r.result.Success? ==>
        && tpp.Some?
        && s.result.Success?
        && |s.result.value| == 1
        && Valid(s.state)
        && s.state.publicKeyMap == m.publicKeyMap
        && SignEach(s.state, keys[1..], chainId, serializedTransaction, env).result.Success?
        && r.result.value == s.result.value + SignEach(s.state, keys[1..], chainId, serializedTransaction, env).result.value
  {
    var tpp := FindIdentityForKey(m.publicKeyMap, keys[0]);
    SignTransactionShape(m, tpp, chainId, serializedTransaction, env);
  }

  /** Every key costs exactly one `signTransaction` call yielding one signature. */
  lemma {:induction false} SignEachCount(m: Manager, keys: seq<string>, chainId: string, serializedTransaction: seq<byte>, env: Env)
    requires Valid(m)
    ensures var r := SignEach(m, keys, chainId, serializedTransaction, env);
      r.result.Success? ==> |r.result.value| == |keys|
    decreases |keys|
  {
    var r := SignEach(m, keys, chainId, serializedTransaction, env);
    if |keys| > 0 && r.result.Success? {
      SignEachStep(m, keys, chainId, serializedTransaction, env);
      var s := SignTransaction(m, FindIdentityForKey(m.publicKeyMap, keys[0]), chainId, serializedTransaction, env);
      SignEachCount(s.state, keys[1..], chainId, serializedTransaction, env);
    }
  }

  /** A successful loop found a cached identity for every key. */
  lemma {:induction false} SignEachIdentities(m: Manager, keys: seq<string>, chainId: string, serializedTransaction: seq<byte>, env: Env)
    requires Valid(m)
    ensures SignEach(m, keys, chainId, serializedTransaction, env).result.Success? ==>
      forall i | 0 <= i < |keys| :: FindIdentityForKey(m.publicKeyMap, keys[i]).Some?
    decreases |keys|
  {
    var r := SignEach(m, keys, chainId, serializedTransaction, env);
    if |keys| > 0 && r.result.Success? {
      SignEachStep(m, keys, chainId, serializedTransaction, env);
      var s := SignTransaction(m, FindIdentityForKey(m.publicKeyMap, keys[0]), chainId, serializedTransaction, env);
      var rest := keys[1..];
      SignEachIdentities(s.state, rest, chainId, serializedTransaction, env);
      forall i | 0 < i < |keys|
        ensures FindIdentityForKey(m.publicKeyMap, keys[i]).Some?
      {
        assert keys[i] == rest[i - 1];
      }
    }
  }

  /** Every key costs exactly one `signTransaction` call yielding one signature, in key
      order, so a success means every key had a cached identity. */
  lemma SignEachEffect(m: Manager, keys: seq<string>, chainId: string, serializedTransaction: seq<byte>, env: Env)
    requires Valid(m)
    ensures var s := SignEach(m, keys, chainId, serializedTransaction, env);
      s.result.Success? ==>
        && |s.result.value| == |keys|
        && forall i | 0 <= i < |keys| :: FindIdentityForKey(m.publicKeyMap, keys[i]).Some?
  {
    SignEachCount(m, keys, chainId, serializedTransaction, env);
    SignEachIdentities(m, keys, chainId, serializedTransaction, env);
  }

  /** `sign` (lines 40-54): the keys signed are the required keys that are available, in
      `requiredKeys` order with duplicates; the transaction is passed through and no
      context-free data is returned. */
  function Sign(m: Manager, p: LedgerSignatureProvider, args: SignatureProviderArgs, env: Env): Step<PushTransactionArgs>
    requires Valid(m)
  {
    var avail := GetAvailableKeys(m, p, false, env);
    KeysForEffect(m, p.transportPathPairs, false, env);
    match avail.result
    case Failure(e) => Step(avail.state, Failure(e))
    case Success(keys) =>
      var signed := SignEach(avail.state, KeepMembers(args.requiredKeys, keys), args.chainId, args.serializedTransaction, env);
      match signed.result
      case Failure(e) => Step(signed.state, Failure(e))
      case Success(sigs) => Step(signed.state, Success(PushTransactionArgs(sigs, args.serializedTransaction, None)))
  }

  /** A successful `sign` returns one signature per required-and-available key (counting
      duplicates), the transaction unchanged and no context-free data; only the key
      discovery, not the signing, changes the cache. */
  lemma SignResult(m: Manager, p: LedgerSignatureProvider, args: SignatureProviderArgs, env: Env)
    requires Valid(m)
    ensures var s := Sign(m, p, args, env);
      s.result.Success? ==>
        var avail := GetAvailableKeys(m, p, false, env);
        && avail.result.Success?
        && |s.result.value.signatures| == |KeepMembers(args.requiredKeys, avail.result.value)|
        && s.result.value.serializedTransaction == args.serializedTransaction
        && s.result.value.serializedContextFreeData.None?
        && s.state.publicKeyMap == avail.state.publicKeyMap
  {
    var avail := GetAvailableKeys(m, p, false, env);
    KeysForEffect(m, p.transportPathPairs, false, env);
    if avail.result.Success? {
      SignEachEffect(avail.state, KeepMembers(args.requiredKeys, avail.result.value), args.chainId, args.serializedTransaction, env);
      SignEachKeepsCache(avail.state, KeepMembers(args.requiredKeys, avail.result.value), args.chainId, args.serializedTransaction, env);
    }
  }

  /** In a sequential run every required key that is available and non-empty has a cached
      identity, so the reverse lookup never hands `null` to `signTransaction` for it. */
  lemma AvailableKeysResolve(m: Manager, p: LedgerSignatureProvider, env: Env, k: string)
    requires Valid(m)
    requires GetAvailableKeys(m, p, false, env).result.Success?
    requires k in GetAvailableKeys(m, p, false, env).result.value && k != ""
    ensures var c := GetAvailableKeys(m, p, false, env).state.publicKeyMap;
      WellFormed(c) && FindIdentityForKey(c, k).Some?
  {
    var s := GetAvailableKeys(m, p, false, env);
    KeysForEffect(m, p.transportPathPairs, false, env);
    var i :| 0 <= i < |s.result.value| && s.result.value[i] == k;
    var key := TransportPathPairToString(p.transportPathPairs[i]);
    assert Lookup(s.state.publicKeyMap, key) == Some(k);
  }

  /** With no pairs configured there are no keys and `sign` returns no signatures. */
  lemma SignWithoutPairs(m: Manager, args: SignatureProviderArgs, env: Env)
    requires Valid(m)
    ensures GetAvailableKeys(m, LedgerSignatureProvider([]), false, env) == Step(m, Success([]))
    ensures Sign(m, LedgerSignatureProvider([]), args, env)
         == Step(m, Success(PushTransactionArgs([], args.serializedTransaction, None)))
  {
    assert KeepMembers(args.requiredKeys, []) == [];
  }
}
