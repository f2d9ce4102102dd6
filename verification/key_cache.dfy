/** The public-key cache of `TransportManager` (`publicKeyMap`, src/LedgerUtils.ts:61, 92-115).

    The map is a plain object whose keys are `"kind:path"` strings. Such keys always
    contain `:`, so none is an array index and `Object.keys` lists them in insertion
    order; the model therefore keeps the properties as an insertion-ordered list. */
module KeyCache {
  import opened Wrappers
  import opened TransportPaths

  /** One own property: a `"kind:path"` key and the public key stored under it. */
  datatype Entry = Entry(key: string, publicKey: string)

  type Cache = seq<Entry>

  /** What every reachable cache satisfies: no key twice, and every key has a `:`
      (it was produced by `transportPathPairToString`). */
  predicate WellFormed(c: Cache) {
    && (forall i, j | 0 <= i < j < |c| :: c[i].key != c[j].key)
    && (forall i | 0 <= i < |c| :: ':' in c[i].key)
  }

  /** `publicKeyMap[key]`, or `None` when `key` is not an own property. */
  function Lookup(c: Cache, key: string): (r: Option<string>)
    ensures r.None? <==> forall i | 0 <= i < |c| :: c[i].key != key
    ensures r.Some? ==> exists i | 0 <= i < |c| :: c[i] == Entry(key, r.value)
  {
    if |c| == 0 then None
    else if c[0].key == key then Some(c[0].publicKey)
    else Lookup(c[1..], key)
  }

  /** `Object.keys(publicKeyMap)`: the keys in insertion order, listing exactly the keys
      the lookup finds. */
  function Keys(c: Cache): (r: seq<string>)
    ensures |r| == |c| && forall i | 0 <= i < |c| :: r[i] == c[i].key
    ensures forall k :: k in r <==> Lookup(c, k).Some?
  {
    if |c| == 0 then []
    else
      var rest := Keys(c[1..]);
      assert forall k :: k in [c[0].key] + rest <==> k == c[0].key || k in rest;
      [c[0].key] + rest
  }

  /** `publicKeyMap[key] = v`: an existing key keeps its position, a new key goes last. */
  function Store(c: Cache, key: string, v: string): Cache
  {
    if |c| == 0 then [Entry(key, v)]
    else if c[0].key == key then [Entry(key, v)] + c[1..]
    else [c[0]] + Store(c[1..], key, v)
  }

  /** After a store, the stored key reads back the new value and every other key reads
      what it read before. */
  lemma {:induction false} StoreLookup(c: Cache, key: string, v: string, k: string)
    ensures Lookup(Store(c, key, v), k) == if k == key then Some(v) else Lookup(c, k)
  {
    if |c| > 0 && c[0].key != key {
      StoreLookup(c[1..], key, v, k);
    }
  }

  lemma KeysCons(e: Entry, c: Cache)
    ensures Keys([e] + c) == [e.key] + Keys(c)
  {
    assert ([e] + c)[1..] == c;
  }

  /** A store keeps the insertion order: an existing key stays where it was, a new key
      is appended. */
  lemma {:induction false} StoreKeys(c: Cache, key: string, v: string)
    ensures Keys(Store(c, key, v)) == if key in Keys(c) then Keys(c) else Keys(c) + [key]
  {
    if |c| > 0 {
      var tail := c[1..];
      assert c == [c[0]] + tail;
      KeysCons(c[0], tail);
      if c[0].key != key {
        StoreKeys(tail, key, v);
        KeysCons(c[0], Store(tail, key, v));
        assert key in Keys(c) <==> key in Keys(tail);
        if key !in Keys(tail) {
          assert [c[0].key] + (Keys(tail) + [key]) == ([c[0].key] + Keys(tail)) + [key];
        }
      } else {
        KeysCons(Entry(key, v), tail);
      }
    }
  }

  lemma StoreWellFormed(c: Cache, key: string, v: string)
    requires WellFormed(c) && ':' in key
    ensures WellFormed(Store(c, key, v))
  {
    StoreKeys(c, key, v);
    var r := Store(c, key, v);
    assert Keys(r) == if key in Keys(c) then Keys(c) else Keys(c) + [key];
    forall i, j | 0 <= i < j < |r|
      ensures r[i].key != r[j].key
    {
      assert Keys(r)[i] == r[i].key && Keys(r)[j] == r[j].key;
    }
    forall i | 0 <= i < |r|
      ensures ':' in r[i].key
    {
      assert Keys(r)[i] == r[i].key;
    }
  }

  /** `clearPublicKeyCacheForTransportType(kind)`: drop the entries whose key parses to
      that kind, keeping the others in order. */
  function ClearKind(c: Cache, kind: string): Cache
  {
    if |c| == 0 then []
    else if KindOfKey(c[0].key) == Some(kind) then ClearKind(c[1..], kind)
    else [c[0]] + ClearKind(c[1..], kind)
  }

  /** Clearing removes exactly the entries of that kind and no others. */
  lemma {:induction false} ClearKindMembers(c: Cache, kind: string)
    ensures forall e :: e in ClearKind(c, kind) <==> e in c && KindOfKey(e.key) != Some(kind)
  {
    if |c| > 0 {
      ClearKindMembers(c[1..], kind);
      assert c == [c[0]] + c[1..];
    }
  }

  /** After clearing, the keys of that kind are absent and every other key reads what it
      read before. */
  lemma {:induction false} ClearKindLookup(c: Cache, kind: string, k: string)
    ensures Lookup(ClearKind(c, kind), k) == if KindOfKey(k) == Some(kind) then None else Lookup(c, k)
  {
    if |c| > 0 {
      ClearKindLookup(c[1..], kind, k);
    }
  }

  lemma ClearKindWellFormed(c: Cache, kind: string)
    requires WellFormed(c)
    ensures WellFormed(ClearKind(c, kind))
  {
    var r := ClearKind(c, kind);
    ClearKindMembers(c, kind);
    forall i | 0 <= i < |r|
      ensures ':' in r[i].key
    {
      assert r[i] in c;
    }
    ClearKindUnique(c, kind);
  }

  lemma {:induction false} ClearKindUnique(c: Cache, kind: string)
    requires forall i, j | 0 <= i < j < |c| :: c[i].key != c[j].key
    ensures forall i, j | 0 <= i < j < |ClearKind(c, kind)| :: ClearKind(c, kind)[i].key != ClearKind(c, kind)[j].key
  {
    if |c| > 0 {
      ClearKindUnique(c[1..], kind);
      ClearKindMembers(c[1..], kind);
      var rest := ClearKind(c[1..], kind);
      forall e | e in rest
        ensures e.key != c[0].key
      {
        var j :| 0 <= j < |c[1..]| && c[1..][j] == e;
        assert c[j + 1] == e;
      }
    }
  }

  /** `getTransportPathPairFromCacheForPublicKey`: the identity under which the FIRST entry
      (in insertion order) holding `publicKey` is stored, or `null` when none holds it. */
  function FindIdentityForKey(c: Cache, publicKey: string): (r: Option<TransportPathPair>)
    requires forall i | 0 <= i < |c| :: ':' in c[i].key
    ensures r.None? <==> forall i | 0 <= i < |c| :: c[i].publicKey != publicKey
    ensures r.Some? ==> exists i | 0 <= i < |c| ::
      && c[i].publicKey == publicKey
      && (forall j | 0 <= j < i :: c[j].publicKey != publicKey)
      && StringToTransportPathPair(c[i].key) == Success(r.value)
  {
    match FirstHolder(c, publicKey)
    case None => None
    case Some(i) => Some(StringToTransportPathPair(c[i].key).value)
  }

  /** The position of the first entry holding `publicKey`, as the loop of lines 100-104
      visits the keys. */
  function FirstHolder(c: Cache, publicKey: string): (r: Option<nat>)
    ensures r.None? <==> forall i | 0 <= i < |c| :: c[i].publicKey != publicKey
    ensures r.Some? ==>
      && r.value < |c|
      && c[r.value].publicKey == publicKey
      && forall j | 0 <= j < r.value :: c[j].publicKey != publicKey
  {
    if |c| == 0 then None
    else if c[0].publicKey == publicKey then Some(0)
    else match FirstHolder(c[1..], publicKey)
      case None => None
      case Some(i) => Some(i + 1)
  }

  /** A cached value is trusted only when it is non-empty (`hasOwnProperty && value`). */
  predicate IsHit(c: Cache, key: string) {
    Lookup(c, key).Some? && Lookup(c, key).value != ""
  }
}
