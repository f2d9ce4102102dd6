/** The key map as src/LedgerUtils.ts declares it: `publicKeyMap` has a type but no
    initializer and the constructor is empty, so it starts `undefined` and nothing ever
    assigns it. Every member that touches it reads a property of `undefined` first. */
module UninitializedKeyMap {
  import opened Wrappers
  import opened Errors
  import opened TransportPaths
  import opened KeyCache
  import opened TransportManager

  /** The manager with the key map as it really is: `None` stands for `undefined`. */
  datatype RawManager = RawManager(transportMap: TransportCacheMap, publicKeyMap: Option<Cache>)

  datatype RawStep<T> = RawStep(state: RawManager, result: Result<T, Error>)

  /** `new TransportManager()` (lines 58-64): no channel and no key map at all. */
  const Constructed: RawManager := RawManager(TransportCacheMap(None, None), None)

  /** `getPublicKeyCached` on the real field: `this.publicKeyMap.hasOwnProperty` throws a
      `TypeError` when the map is undefined; on an existing map it is the usual lookup. */
  function GetPublicKeyCachedAsWritten(m: RawManager, tpp: TransportPathPair, requestPermission: bool, env: Env)
    : RawStep<string>
  {
    match m.publicKeyMap
    case None => RawStep(m, Failure(UndefinedKeyMap))
    case Some(c) =>
      var t := GetPublicKeyCached(Manager(m.transportMap, c), tpp, requestPermission, env);
      RawStep(RawManager(t.state.transportMap, Some(t.state.publicKeyMap)), t.result)
  }

  /** `getAvailableKeys` of a `LedgerSignatureProvider` on the real field: the lookups in
      configuration order, stopping at the first failure. */
  function KeysForAsWritten(m: RawManager, pairs: seq<TransportPathPair>, requestPermission: bool, env: Env)
    : RawStep<seq<string>>
    decreases |pairs|
  {
    if |pairs| == 0 then RawStep(m, Success([]))
    else
      var s := GetPublicKeyCachedAsWritten(m, pairs[0], requestPermission, env);
      match s.result
      case Failure(e) => RawStep(s.state, Failure(e))
      case Success(key) =>
        var rest := KeysForAsWritten(s.state, pairs[1..], requestPermission, env);
        match rest.result
        case Failure(e) => RawStep(rest.state, Failure(e))
        case Success(keys) => RawStep(rest.state, Success([key] + keys))
  }

  /** As written, a freshly constructed manager can never produce a key: any provider with
      at least one pair fails with the `TypeError`, whatever the device does, and the state
      stays as constructed, so every later call fails the same way. */
  lemma AsWrittenNeverYieldsAKey(pairs: seq<TransportPathPair>, requestPermission: bool, env: Env)
    requires 0 < |pairs|
    ensures KeysForAsWritten(Constructed, pairs, requestPermission, env) == RawStep(Constructed, Failure(UndefinedKeyMap))
  {
  }

  /** With the key map initialized to an empty map (`TransportManager.Initial`), the first
      successful lookup of a pair derives its key and caches it, and a second lookup is
      answered from the cache whatever the device would do. */
  lemma InitializedMapCaches(tpp: TransportPathPair, requestPermission: bool, env: Env, env2: Env)
    requires GetPublicKeyCached(Initial, tpp, requestPermission, env).result.Success?
    ensures var s := GetPublicKeyCached(Initial, tpp, requestPermission, env);
      && Valid(s.state)
      && Lookup(s.state.publicKeyMap, TransportPathPairToString(tpp)) == Some(s.result.value)
      && (s.result.value != "" ==> GetPublicKeyCached(s.state, tpp, requestPermission, env2) == Step(s.state, s.result))
  {
    var key := TransportPathPairToString(tpp);
    CachedPreserves(Initial, tpp, requestPermission, env, key);
    var s := GetPublicKeyCached(Initial, tpp, requestPermission, env);
    if s.result.value != "" {
      CachedHit(s.state, tpp, requestPermission, env2, env2);
    }
  }

  /** The corrected manager is the real one with its key map defined: on such a state the
      as-written lookup and the corrected model agree step for step. */
  lemma InitializedAgrees(m: Manager, tpp: TransportPathPair, requestPermission: bool, env: Env)
    ensures var raw := GetPublicKeyCachedAsWritten(RawManager(m.transportMap, Some(m.publicKeyMap)), tpp, requestPermission, env);
      var fixed := GetPublicKeyCached(m, tpp, requestPermission, env);
      && raw.result == fixed.result
      && raw.state == RawManager(fixed.state.transportMap, Some(fixed.state.publicKeyMap))
  {
  }
}
