/** `CombinedSignatureProvider` (src/CombinedSignatureProvider.ts): routes each required key
    to the last provider that advertises it and merges the signatures in provider order. */
module CombinedSignatureProvider {
  import opened Wrappers
  import opened Errors
  import opened Seqs
  import opened SignerInterface

  /** Any signature provider seen from outside: what its `getAvailableKeys` resolves to, and
      what its `sign` resolves to for given arguments. */
  datatype Provider = Provider(
    availableKeys: Result<seq<string>, Error>,
    sign: SignatureProviderArgs -> Result<PushTransactionArgs, Error>)

  datatype CombinedSignatureProvider = CombinedSignatureProvider(providers: seq<Provider>)

  /** The constructor (lines 9-11): a copy of the list when one is given, else no providers. */
  function New(providers: Option<seq<Provider>>): CombinedSignatureProvider {
    CombinedSignatureProvider(if providers.Some? then providers.value else [])
  }

  /** `setProviders` (lines 12-14): replaces the list by a copy. */
  function SetProviders(c: CombinedSignatureProvider, providers: seq<Provider>): CombinedSignatureProvider {
    c.(providers := providers)
  }

  /** `addProvider` (lines 15-17): appends at the end. */
  function AddProvider(c: CombinedSignatureProvider, p: Provider): CombinedSignatureProvider {
    c.(providers := c.providers + [p])
  }

  /** The loop of `getAvailableKeys` (lines 18-24): each provider in turn, concatenated. */
  function ConcatKeys(ps: seq<Provider>): Result<seq<string>, Error> {
    if |ps| == 0 then Success([])
    else match ps[0].availableKeys
      case Failure(e) => Failure(e)
      case Success(keys) =>
        match ConcatKeys(ps[1..])
        case Failure(e) => Failure(e)
        case Success(rest) => Success(keys + rest)
  }

  function GetAvailableKeys(c: CombinedSignatureProvider): Result<seq<string>, Error> {
    ConcatKeys(c.providers)
  }

  /** `Promise.all(providers.map(x => x.getAvailableKeys()))` (line 30), taken in index
      order: the keys of every provider, index-aligned, or the first failure. */
  function AllAvailableKeys(ps: seq<Provider>): (r: Result<seq<seq<string>>, Error>)
    ensures r.Success? <==> forall i | 0 <= i < |ps| :: ps[i].availableKeys.Success?
    ensures r.Success? ==>
      && |r.value| == |ps|
      && forall i | 0 <= i < |ps| :: r.value[i] == ps[i].availableKeys.value
    ensures r.Failure? ==> exists j | 0 <= j < |ps| ::
      && ps[j].availableKeys == Failure(r.error)
      && forall i | 0 <= i < j :: ps[i].availableKeys.Success?
  {
    if |ps| == 0 then Success([])
    else match ps[0].availableKeys
      case Failure(e) => Failure(e)
      case Success(keys) =>
        match AllAvailableKeys(ps[1..])
        case Failure(e) => Failure(e)
        case Success(rest) => Success([keys] + rest)
  }

  /** `getAvailableKeys` is the concatenation, in provider order and without removing
      duplicates, of the lists the providers advertise; it fails exactly when one of them
      does, with the first failure. */
  lemma {:induction false} ConcatKeysIsFlatten(ps: seq<Provider>)
    ensures ConcatKeys(ps).Success? <==> AllAvailableKeys(ps).Success?
    ensures ConcatKeys(ps).Success? ==> ConcatKeys(ps).value == Flatten(AllAvailableKeys(ps).value)
    ensures ConcatKeys(ps).Failure? ==> ConcatKeys(ps) == Failure(AllAvailableKeys(ps).error)
  {
    if |ps| > 0 && ps[0].availableKeys.Success? {
      ConcatKeysIsFlatten(ps[1..]);
      if AllAvailableKeys(ps).Success? {
        var all := AllAvailableKeys(ps).value;
        assert all[1..] == AllAvailableKeys(ps[1..]).value;
      }
    }
  }

  lemma {:induction false} ConcatKeysAppend(ps: seq<Provider>, p: Provider)
    requires ConcatKeys(ps).Success? && p.availableKeys.Success?
    ensures ConcatKeys(ps + [p]) == Success(ConcatKeys(ps).value + p.availableKeys.value)
  {
    if |ps| == 0 {
      assert ps + [p] == [p];
      assert [p][1..] == [];
      assert ConcatKeys(ps) == Success([]);
      assert ConcatKeys([p]) == Success(p.availableKeys.value + []);
      assert [] + p.availableKeys.value == p.availableKeys.value + [];
    } else {
      assert (ps + [p])[0] == ps[0];
      assert (ps + [p])[1..] == ps[1..] + [p];
      ConcatKeysAppend(ps[1..], p);
      var keys := ps[0].availableKeys.value;
      var rest := ConcatKeys(ps[1..]).value;
      assert ConcatKeys(ps + [p]) == Success(keys + (rest + p.availableKeys.value));
      assert keys + (rest + p.availableKeys.value) == (keys + rest) + p.availableKeys.value;
    }
  }

  /** After `addProvider(p)` the advertised keys are the previous ones followed by `p`'s. */
  lemma AddProviderKeys(c: CombinedSignatureProvider, p: Provider)
    requires GetAvailableKeys(c).Success? && p.availableKeys.Success?
    ensures GetAvailableKeys(AddProvider(c, p)) == Success(GetAvailableKeys(c).value + p.availableKeys.value)
  {
    ConcatKeysAppend(c.providers, p);
  }

  /** `keys.forEach(k => pubKeyMap[k] = ind)`: every key of the list now maps to `ind`. */
  function Assign(owner: map<string, nat>, keys: seq<string>, ind: nat): (r: map<string, nat>)
    ensures forall k :: k in r <==> k in owner || k in keys
    ensures forall k | k in r :: r[k] == if k in keys then ind else owner[k]
    decreases |keys|
  {
    if |keys| == 0 then owner
    else Assign(owner[keys[0] := ind], keys[1..], ind)
  }

  /** `pubKeyMap` after the `forEach` over the providers' key lists (lines 31-33). */
  function OwnershipMap(keysById: seq<seq<string>>): map<string, nat>
  {
    if |keysById| == 0 then map[]
    else Assign(OwnershipMap(keysById[..|keysById| - 1]), keysById[|keysById| - 1], |keysById| - 1)
  }

  /** Last provider wins: a key is owned exactly when some provider advertises it, and its
      owner is the largest index that does. */
  lemma {:induction false} OwnershipLastWins(keysById: seq<seq<string>>, k: string)
    ensures k in OwnershipMap(keysById) <==> exists i | 0 <= i < |keysById| :: k in keysById[i]
    ensures k in OwnershipMap(keysById) ==>
      var o := OwnershipMap(keysById)[k];
      && o < |keysById|
      && k in keysById[o]
      && forall j | o < j < |keysById| :: k !in keysById[j]
  {
    if |keysById| > 0 {
      var n := |keysById| - 1;
      var front := keysById[..n];
      OwnershipLastWins(front, k);
      assert forall i | 0 <= i < n :: front[i] == keysById[i];
    }
  }

  lemma OwnershipBound(keysById: seq<seq<string>>)
    ensures forall k | k in OwnershipMap(keysById) :: OwnershipMap(keysById)[k] < |keysById|
  {
    forall k | k in OwnershipMap(keysById) {
      OwnershipLastWins(keysById, k);
    }
  }

  /** The required keys owned by provider `i`, in `requiredKeys` order with duplicates: the
      reference description of bucket `i`. */
  function OwnedBy(owner: map<string, nat>, i: nat, required: seq<string>): (r: seq<string>)
    ensures forall k :: k in r <==> k in required && k in owner && owner[k] == i
  {
    if |required| == 0 then []
    else
      (if required[0] in owner && owner[required[0]] == i then [required[0]] else [])
      + OwnedBy(owner, i, required[1..])
  }

  lemma {:induction false} OwnedByAppend(owner: map<string, nat>, i: nat, required: seq<string>, k: string)
    ensures OwnedBy(owner, i, required + [k])
         == OwnedBy(owner, i, required) + (if k in owner && owner[k] == i then [k] else [])
  {
    if |required| == 0 {
      assert required + [k] == [k];
      assert [k][1..] == [];
    } else {
      assert (required + [k])[1..] == required[1..] + [k];
      OwnedByAppend(owner, i, required[1..], k);
    }
  }

  /** The `requiredByProvider` loop (lines 34-39): one bucket per provider, each required
      key pushed onto the bucket of its owner, unowned keys skipped. */
  function Buckets(owner: map<string, nat>, n: nat, required: seq<string>): (r: seq<seq<string>>)
    requires forall k | k in owner :: owner[k] < n
    ensures |r| == n
  {
    if |required| == 0 then seq(n, _ => [])
    else
      var b := Buckets(owner, n, required[..|required| - 1]);
      var rk := required[|required| - 1];
      if rk in owner then b[owner[rk] := b[owner[rk]] + [rk]] else b
  }

  /** `requiredByProvider` for the advertised key lists, as `sign` builds it. */
  function RequiredByProvider(keysById: seq<seq<string>>, required: seq<string>): (r: seq<seq<string>>)
    ensures |r| == |keysById|
  {
    OwnershipBound(keysById);
    Buckets(OwnershipMap(keysById), |keysById|, required)
  }

  /** Bucket `i` is exactly the subsequence of `requiredKeys` that provider `i` owns. */
  lemma {:induction false} BucketsAreOwnedBy(owner: map<string, nat>, n: nat, required: seq<string>)
    requires forall k | k in owner :: owner[k] < n
    ensures forall i | 0 <= i < n :: Buckets(owner, n, required)[i] == OwnedBy(owner, i, required)
  {
    if |required| > 0 {
      var front := required[..|required| - 1];
      var rk := required[|required| - 1];
      assert required == front + [rk];
      BucketsAreOwnedBy(owner, n, front);
      forall i | 0 <= i < n
        ensures Buckets(owner, n, required)[i] == OwnedBy(owner, i, required)
      {
        OwnedByAppend(owner, i, front, rk);
      }
    }
  }

  /** The buckets of `sign` partition the owned required keys: no key lands in two buckets,
      bucket `i` only holds keys provider `i` advertises, a key nobody advertises is dropped,
      and an owned required key lands in its owner's bucket. */
  lemma BucketsPartition(keysById: seq<seq<string>>, required: seq<string>, k: string)
    ensures var owner := OwnershipMap(keysById);
      var b := RequiredByProvider(keysById, required);
      && (forall i, j | 0 <= i < j < |keysById| :: !(k in b[i] && k in b[j]))
      && (forall i | 0 <= i < |keysById| :: k in b[i] ==> k in keysById[i])
      && ((forall i | 0 <= i < |keysById| :: k !in keysById[i]) ==> forall i | 0 <= i < |keysById| :: k !in b[i])
      && (k in required && k in owner ==> owner[k] < |b| && k in b[owner[k]])
  {
    OwnershipBound(keysById);
    OwnershipLastWins(keysById, k);
    BucketsAreOwnedBy(OwnershipMap(keysById), |keysById|, required);
  }

  /** What provider `i` adds to the result: nothing for an empty bucket, otherwise the
      signatures its `sign` returns for the input with `requiredKeys` set to the bucket. */
  function Contribution(p: Provider, bucket: seq<string>, args: SignatureProviderArgs): Result<seq<string>, Error>
  {
    if |bucket| == 0 then Success([])
    else match p.sign(args.(requiredKeys := bucket))
      case Failure(e) => Failure(e)
      case Success(r) => Success(r.signatures)
  }

  function SignaturesOf(r: Result<seq<string>, Error>): seq<string> {
    if r.Success? then r.value else []
  }

  /** The signing loop (lines 40-46), from provider `i` on. */
  function SignFrom(ps: seq<Provider>, buckets: seq<seq<string>>, args: SignatureProviderArgs, i: nat)
    : Result<seq<string>, Error>
    requires |buckets| == |ps| && i <= |ps|
    decreases |ps| - i
  {
    if i == |ps| then Success([])
    else if |buckets[i]| == 0 then SignFrom(ps, buckets, args, i + 1)
    else match ps[i].sign(args.(requiredKeys := buckets[i]))
      case Failure(e) => Failure(e)
      case Success(r) =>
        match SignFrom(ps, buckets, args, i + 1)
        case Failure(e) => Failure(e)
        case Success(rest) => Success(r.signatures + rest)
  }

  /** The signatures are the providers' contributions concatenated in index order; the loop
      fails exactly when a called provider fails, with the first such failure. */
  lemma {:induction false} SignFromOrder(ps: seq<Provider>, buckets: seq<seq<string>>, args: SignatureProviderArgs, i: nat)
    requires |buckets| == |ps| && i <= |ps|
    ensures var r := SignFrom(ps, buckets, args, i);
      && (r.Success? <==> forall j | i <= j < |ps| :: Contribution(ps[j], buckets[j], args).Success?)
      && (r.Success? ==> r.value == Flatten(seq(|ps| - i, j requires 0 <= j < |ps| - i =>
            SignaturesOf(Contribution(ps[i + j], buckets[i + j], args)))))
      && (r.Failure? ==> exists j | i <= j < |ps| ::
            && Contribution(ps[j], buckets[j], args) == Failure(r.error)
            && forall l | i <= l < j :: Contribution(ps[l], buckets[l], args).Success?)
    decreases |ps| - i
  {
    if i < |ps| {
      SignFromOrder(ps, buckets, args, i + 1);
      var all := seq(|ps| - i, j requires 0 <= j < |ps| - i => SignaturesOf(Contribution(ps[i + j], buckets[i + j], args)));
      var tail := seq(|ps| - (i + 1), j requires 0 <= j < |ps| - (i + 1) => SignaturesOf(Contribution(ps[i + 1 + j], buckets[i + 1 + j], args)));
      assert all[0] == SignaturesOf(Contribution(ps[i], buckets[i], args));
      assert all[1..] == tail;
      assert Flatten(all) == all[0] + Flatten(all[1..]);
      var r := SignFrom(ps, buckets, args, i);
      var rest := SignFrom(ps, buckets, args, i + 1);
      if r.Success? {
        if |buckets[i]| == 0 {
          assert r == rest;
        } else {
          assert r.value == ps[i].sign(args.(requiredKeys := buckets[i])).value.signatures + rest.value;
        }
      }
    }
  }

  /** Only providers with a non-empty bucket are asked to sign, and each only with the
      input whose `requiredKeys` is its bucket: any two provider lists that answer those
      calls alike give the same result. */
  lemma {:induction false} IdleProvidersNotCalled(ps: seq<Provider>, qs: seq<Provider>, buckets: seq<seq<string>>, args: SignatureProviderArgs, i: nat)
    requires |buckets| == |ps| == |qs| && i <= |ps|
    requires forall j | i <= j < |ps| && |buckets[j]| > 0 ::
      qs[j].sign(args.(requiredKeys := buckets[j])) == ps[j].sign(args.(requiredKeys := buckets[j]))
    ensures SignFrom(qs, buckets, args, i) == SignFrom(ps, buckets, args, i)
    decreases |ps| - i
  {
    if i < |ps| {
      IdleProvidersNotCalled(ps, qs, buckets, args, i + 1);
    }
  }

  /** `sign` (lines 26-53). */
  function Sign(c: CombinedSignatureProvider, args: SignatureProviderArgs): (r: Result<PushTransactionArgs, Error>)
    ensures r.Success? ==>
      && r.value.serializedTransaction == args.serializedTransaction
      && r.value.serializedContextFreeData == args.serializedContextFreeData
  {
    match AllAvailableKeys(c.providers)
    case Failure(e) => Failure(e)
    case Success(keysById) =>
      var buckets := RequiredByProvider(keysById, args.requiredKeys);
      match SignFrom(c.providers, buckets, args, 0)
      case Failure(e) => Failure(e)
      case Success(sigs) => Success(PushTransactionArgs(sigs, args.serializedTransaction, args.serializedContextFreeData))
  }

  /** A successful `sign` returns, in provider order, the signatures of every provider
      whose bucket is non-empty; with `BucketsAreOwnedBy` the bucket is the required keys
      the provider owns. */
  lemma SignMerges(c: CombinedSignatureProvider, args: SignatureProviderArgs)
    ensures Sign(c, args).Success? ==>
      && AllAvailableKeys(c.providers).Success?
      && var buckets := RequiredByProvider(AllAvailableKeys(c.providers).value, args.requiredKeys);
         Sign(c, args).value.signatures == Flatten(seq(|c.providers|, j requires 0 <= j < |c.providers| =>
           SignaturesOf(Contribution(c.providers[j], buckets[j], args))))
  {
    var ps := c.providers;
    if Sign(c, args).Success? {
      var buckets := RequiredByProvider(AllAvailableKeys(ps).value, args.requiredKeys);
      SignFromOrder(ps, buckets, args, 0);
      assert Sign(c, args).value.signatures == SignFrom(ps, buckets, args, 0).value;
      var fromOrder := seq(|ps| - 0, j requires 0 <= j < |ps| - 0 => SignaturesOf(Contribution(ps[0 + j], buckets[0 + j], args)));
      var stated := seq(|c.providers|, j requires 0 <= j < |c.providers| => SignaturesOf(Contribution(c.providers[j], buckets[j], args)));
      assert forall j | 0 <= j < |ps| :: fromOrder[j] == stated[j];
      assert fromOrder == stated;
    }
  }

  /** Two providers, A advertising k1 and k2 and B advertising k2 and k3: B owns k2, so
      signing for k1, k2, k3 asks A for k1 alone and B for k2 and k3. */
  lemma TwoProviderRouting()
    ensures RequiredByProvider([["k1", "k2"], ["k2", "k3"]], ["k1", "k2", "k3"]) == [["k1"], ["k2", "k3"]]
  {
    var keysById := [["k1", "k2"], ["k2", "k3"]];
    assert keysById[..1] == [["k1", "k2"]];
    assert [["k1", "k2"]][..0] == [];
    var first := OwnershipMap([["k1", "k2"]]);
    assert first == Assign(map[], ["k1", "k2"], 0);
    var owner := OwnershipMap(keysById);
    assert owner == Assign(first, ["k2", "k3"], 1);
    assert "k1" in owner && owner["k1"] == 0;
    assert "k2" in owner && owner["k2"] == 1;
    assert "k3" in owner && owner["k3"] == 1;
    OwnershipBound(keysById);
    var required := ["k1", "k2", "k3"];
    assert required[..2] == ["k1", "k2"] && required[..2][..1] == ["k1"] && required[..2][..1][..0] == [];
    var b0 := Buckets(owner, 2, []);
    assert b0 == [[], []];
    assert ["k1"][..0] == [];
    assert ["k1", "k2"][..1] == ["k1"];
    assert ["k1", "k2", "k3"][..2] == ["k1", "k2"];
    var b1 := Buckets(owner, 2, ["k1"]);
    assert b1 == b0[0 := b0[0] + ["k1"]];
    assert b0[0] + ["k1"] == ["k1"];
    assert b1 == [["k1"], []];
    var b2 := Buckets(owner, 2, ["k1", "k2"]);
    assert b2 == b1[1 := b1[1] + ["k2"]];
    assert b1[1] + ["k2"] == ["k2"];
    assert b2 == [["k1"], ["k2"]];
    var b3 := Buckets(owner, 2, required);
    assert b3 == b2[1 := b2[1] + ["k3"]];
    assert b2[1] + ["k3"] == ["k2", "k3"];
  }
}
