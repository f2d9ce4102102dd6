# Ledger signature provider, modelled in Dafny

This project models the signing core of `zswjs-ledger-signature-provider`, the TypeScript
library that lets a `zswjs` application sign transactions with a Ledger hardware wallet.
The model covers these layers:

- **Identity strings.** `"kind:path"` strings (`usb:44'/194'/0'/0/3`) are split at the
  first `:`, and a bare index becomes the account-0 path `44'/194'/0'/0/<n>`. The model
  reproduces `parseInt(s, 10).toString() === s` for integers of magnitude at most 2^53.
  Beyond that the model reads digits exactly, while JavaScript rounds to a double and
  prints the shortest digit string that reads back to it.
- **The `TransportManager` state.** It holds the channel registry, with one `usb` and one
  `bluetooth` slot, and the insertion-ordered public-key cache. The model covers its cached
  key lookup, its reverse lookup by public key, the cache clearing on disconnect, and the
  derivation of a key on the device.
- **The signing exchange.**
  - The transaction is re-encoded as a fixed sequence of BER OCTET STRING elements.
  - That payload is split into 150-byte frames. The first frame carries the derivation
    path prefix, and the P1 byte marks the first frame and the ones that follow.
  - The frames are sent strictly one after another, and only the last reply is kept.
  - The reply's `v || r || s` is converted with `convertSignatures`.
- **Two signature providers.**
  - `LedgerSignatureProvider`: the keys it offers are the cached lookups of its configured
    pairs, in order. It signs each required key that is available, in `requiredKeys` order.
  - `CombinedSignatureProvider`: each key is owned by the last provider that advertises it.
    Required keys are put in one bucket per provider, only providers with a non-empty
    bucket are asked to sign, and their signatures are concatenated in provider order.

State is explicit. Each manager operation takes a `Manager` and returns a `Step` holding
the new `Manager` and a `Result`. The device, the transports and the external libraries are
function-valued fields of an `Env`:

- `create`: opens a channel;
- `send`: one APDU exchange, given the commands already sent in the same exchange;
- `parsePath`: `bip32-path`;
- `deserialize`: `api.deserializeTransaction`;
- `encodeField`: `api.serialize` per type;
- `signatureFromRaw`: `ecc.Signature.from(...).toString()`.

A thrown exception is a `Failure` carrying an `Errors.Error`. Where the code and its
description disagree, the model follows the code:

- The reverse lookup returns the FIRST cache entry holding the public key.
- `LedgerSignatureProvider.sign` signs in `requiredKeys` order, not in cache order.
- A reverse lookup that finds nothing is not skipped. `null` is passed to
  `signTransaction`, which throws at `tpp.transportType`.
- `"NaN"` counts as a shorthand and becomes `44'/194'/0'/0/NaN`.
- An empty payload yields no frames. `response` then stays `undefined`, and reading it
  throws.

Files: `wrappers.dfy`, `errors.dfy`, `seqs.dfy`, `bytes.dfy`, `transport_paths.dfy`,
`key_cache.dfy`, `apdu.dfy`, `framing.dfy`, `signature_codec.dfy`, `ber.dfy`,
`canonicalizer.dfy`, `transport_manager.dfy`, `signer_interface.dfy`,
`ledger_signature_provider.dfy`, `combined_signature_provider.dfy` and
`uninitialized_key_map.dfy`.

## Model

| member | source | states |
|---|---|---|
| Seqs.KeepMembers | src/LedgerSignatureProvider.ts:42 | the filtered list keeps exactly the elements of `requiredKeys` that are available, each with its full multiplicity, and is no longer than the input |
| Seqs.KeepMembersAppend | src/LedgerSignatureProvider.ts:42 | filtering distributes over concatenation, so the kept keys stay in `requiredKeys` order |
| Seqs.FlattenAppend | src/CombinedSignatureProvider.ts:40-46 | joining lists end to end distributes over concatenation |
| Seqs.FlattenLength | src/CombinedSignatureProvider.ts:40-46 | the joined list is as long as all the parts together |
| Bytes.BigEndian32 | src/LedgerUtils.ts:126-128 | `writeUInt32BE` writes four bytes whose big-endian value is the component |
| Bytes.MinimalBigEndianRoundTrip | src/LedgerUtils.ts:311-313 | the long-form length octets denote the length, and their first octet is non-zero when the length is non-zero |
| Bytes.Slice | src/LedgerUtils.ts:143-147 | `Buffer.slice` is the plain slice inside the buffer, clamped to the buffer when only its end lies past the end (the rest from `start`), and empty when it starts past the end |
| Bytes.Hex | src/LedgerUtils.ts:216-218 | hex text has two digits per byte |
| Bytes.HexAppend | src/LedgerUtils.ts:216-219 | the hex of `v`, `r` and `s` concatenated is the hex of the bytes concatenated |
| Bytes.HexOfZeros | src/LedgerUtils.ts:299 | the hex text of `Buffer.alloc(n, 0)` is `2n` `0` digits |
| Bytes.HexRoundTrip | src/LedgerUtils.ts:171-177 | `Buffer.from(buf.toString('hex'), 'hex')` gives the bytes back |
| Bytes.AsciiRoundTrip | src/LedgerUtils.ts:143-148 | on 7-bit bytes, the `ascii` decoding loses nothing and yields 7-bit text |
| TransportPaths.NatToStringIsCanonical | src/LedgerUtils.ts:34 | a printed natural is canonical text that reads back as itself |
| TransportPaths.CanonicalNatRoundTrip | src/LedgerUtils.ts:34 | canonical digit text prints back unchanged after reading |
| TransportPaths.PrintedNumberIsCanonical | src/LedgerUtils.ts:34 | whatever `parseInt` yields prints as canonical integer text or `NaN` |
| TransportPaths.CanonicalNatParses | src/LedgerUtils.ts:34 | `parseInt` reads canonical natural text as its value |
| TransportPaths.CanonicalNegativeParses | src/LedgerUtils.ts:34 | `parseInt` reads canonical negative text as its value |
| TransportPaths.CanonicalIntPrintsBack | src/LedgerUtils.ts:34 | canonical integer text survives `parseInt` followed by `toString` |
| TransportPaths.NaNPrintsBack | src/LedgerUtils.ts:34 | the text `NaN` passes the shorthand test, because `parseInt` gives NaN and NaN prints as `NaN` |
| TransportPaths.ParseIntPrintsBackIff | src/LedgerUtils.ts:34 | with `parseInt` reading digit strings as exact integers, `parseInt(s, 10).toString() === s` holds exactly for canonical integer text and for `NaN` |
| TransportPaths.ConvertShortHandPaths | src/LedgerUtils.ts:33-39 | a shorthand (no `/`, canonical integer or `NaN`) becomes `44'/194'/0'/0/` followed by it; anything else is returned unchanged; the result differs from the input exactly for shorthands |
| TransportPaths.ConvertShortHandPathsIdempotent | src/LedgerUtils.ts:33-39 | converting a converted path changes nothing |
| TransportPaths.DefaultLedgerPath | src/LedgerUtils.ts:52 | the default `GET_LEDGER_PATHS()` and the shorthand `0` both denote `44'/194'/0'/0/0` |
| TransportPaths.IndexOf | src/LedgerUtils.ts:41 | `indexOf` is the first position holding the character, or none when it is absent |
| TransportPaths.StringToTransportPathPair | src/LedgerUtils.ts:40-51 | fails with the invalid-pair error exactly when there is no `:`; otherwise the kind is the text before the first `:` and the path is the converted rest |
| TransportPaths.ParseOfPrinted | src/LedgerUtils.ts:30-51 | parsing `kind:raw` with a `:`-free kind gives the kind and the converted `raw` |
| TransportPaths.PairRoundTrip | src/LedgerUtils.ts:30-51 | printing then parsing gives the pair back when its kind has no `:` and its path is not a shorthand |
| TransportPaths.ShorthandPairDoesNotRoundTrip | src/LedgerUtils.ts:30-51 | the pair `usb`/`0` comes back with its path expanded, not as it was |
| TransportPaths.StringRoundTrip | src/LedgerUtils.ts:30-51 | printing a parsed pair and parsing again gives the same pair |
| KeyCache.Lookup | src/LedgerUtils.ts:109-110 | the lookup is empty exactly when no entry has the key, and otherwise it is an entry's value |
| KeyCache.Keys | src/LedgerUtils.ts:99 | `Object.keys` lists every entry's key in insertion order, and a key is listed exactly when the lookup finds it |
| KeyCache.StoreLookup | src/LedgerUtils.ts:113 | after the assignment the key maps to the new value and every other key keeps its value |
| KeyCache.StoreKeys | src/LedgerUtils.ts:113 | an assignment keeps the position of an existing key and appends a new key at the end |
| KeyCache.StoreWellFormed | src/LedgerUtils.ts:113 | assigning a `kind:path` key keeps the keys unique and `:`-bearing |
| KeyCache.ClearKindMembers | src/LedgerUtils.ts:92-97 | clearing a kind keeps exactly the entries whose key has another kind |
| KeyCache.ClearKindLookup | src/LedgerUtils.ts:92-97 | after clearing, the keys of that kind are absent and the others keep their values |
| KeyCache.ClearKindWellFormed | src/LedgerUtils.ts:92-97 | clearing keeps the cache well formed |
| KeyCache.ClearKindUnique | src/LedgerUtils.ts:92-97 | clearing keeps keys unique |
| KeyCache.FirstHolder | src/LedgerUtils.ts:100-104 | the position of the first entry holding the public key, or none exactly when no entry holds it |
| KeyCache.FindIdentityForKey | src/LedgerUtils.ts:98-106 | the result is `null` exactly when no entry holds the public key; otherwise it is the parse of the key of the FIRST entry holding it |
| Apdu.BigEndianPath | src/LedgerUtils.ts:126-128 | four bytes per path component |
| Apdu.PathPrefix | src/LedgerUtils.ts:124-128 | the prefix is one count byte and four bytes per component |
| Apdu.ReadComponentsRoundTrip | src/LedgerUtils.ts:189-193 | the components written big-endian are read back exactly, and the rest follows |
| Apdu.PathPrefixRoundTrip | src/LedgerUtils.ts:124-128 | a path of fewer than 256 components is read back from its prefix exactly |
| Apdu.SignCommand | src/LedgerUtils.ts:203-210 | P1 is FIRST exactly for frame 0 and MORE exactly for later frames |
| Apdu.ParsePublicKeyResponse | src/LedgerUtils.ts:140-147 | the address slice is shorter than 256 bytes |
| Apdu.PublicKeyResponseRoundTrip | src/LedgerUtils.ts:140-148 | on a reply of a length-prefixed key, a length-prefixed address and anything after, the parser returns exactly the address |
| Ber.DecodeLength | src/LedgerUtils.ts:311-313 | a decoded length takes at least one octet and no more than are there |
| Ber.LengthRoundTrip | src/LedgerUtils.ts:311-313 | an encoded definite length decodes to the same length and octet count, whatever follows |
| Ber.OctetStringsRoundTrip | src/LedgerUtils.ts:264-301 | reading the written buffer gives back exactly the values written, in order |
| Ber.WrittenLength | src/LedgerUtils.ts:264-301 | every element costs at least two octets |
| Canonicalizer.ZeroChecksum | src/LedgerUtils.ts:299 | `Buffer.alloc(32, 0).toString('hex')`, the context-free-data digest, is 64 `0` digits |
| Canonicalizer.AuthorizationFields | src/LedgerUtils.ts:282-285 | two elements per authorization |
| Canonicalizer.ActionsFieldsCount | src/LedgerUtils.ts:277-296 | the actions contribute five elements each plus two per authorization |
| Canonicalizer.FieldLayout | src/LedgerUtils.ts:266-299 | there are `11 + sum(5 + 2·|authorization|)` elements, with the chain id first, the zero context-free-action count, the action count, the zero extension count and the zero digest at their fixed positions |
| Canonicalizer.EncodeFields | src/LedgerUtils.ts:304-309 | encoding succeeds exactly when every typed element's encoder succeeds, giving one value per element |
| Canonicalizer.SerializeLayout | src/LedgerUtils.ts:170-175 | any throw becomes the deserialize error; a success is exactly the element values of the layout in order, at least 22 bytes |
| Framing.LaterFrames | src/LedgerUtils.ts:180-200 | after the first frame come full 150-byte frames and a non-empty last one, which together hold the rest of the payload |
| Framing.FirstFrame | src/LedgerUtils.ts:181-194 | frame 0 is the path prefix followed by as many payload bytes as fit in `149 - 4n` |
| Framing.FramesLayout | src/LedgerUtils.ts:178-200 | for a non-empty payload and at most 37 components: the frame count is `1 + ceil((len - first)/150)`; the frames reassemble the payload exactly; each frame holds 1 to 150 bytes; all frames but the last are full |
| Framing.EmptyPayloadHasNoFrames | src/LedgerUtils.ts:180 | an empty payload never enters the loop |
| Framing.FramesFailure | src/LedgerUtils.ts:181-193 | building the frames throws exactly for a non-empty payload and a path of more than 37 components |
| Framing.Iterate | src/LedgerUtils.ts:247-256 | succeeds exactly when every callback does, with the results in index order appended to `result`; otherwise it fails with the first failing callback |
| Framing.IteratePromises | src/LedgerUtils.ts:246-259 | one result per element in index order, or the first failure |
| Framing.ExchangeOrder | src/LedgerUtils.ts:202-215 | frame `i` is sent after exactly the commands of frames `0..i-1`; with no frames the result is the undefined-response error; a success is the reply to the last frame; a failure is the first failing send |
| Framing.SignatureHex | src/LedgerUtils.ts:216-218 | the text is the hex of the first 65 reply bytes (or of the whole shorter reply), it decodes back to them, and it has 130 digits exactly when the reply has at least 65 bytes |
| SignatureCodec.FlattenOnceAppend | src/LedgerUtils.ts:234 | one-level flattening distributes over concatenation |
| SignatureCodec.FlattenOnceOfFlat | src/LedgerUtils.ts:234 | a list without arrays is left as it is |
| SignatureCodec.ConvertSignatures | src/LedgerUtils.ts:229-244 | the result is the input wrapped and flattened one level, with exactly the 130-character strings converted |
| SignatureCodec.ConvertFrom | src/LedgerUtils.ts:236-241 | the in-place loop from index `i` leaves the entries before `i` alone, converts each later 130-character string and keeps every other later entry |
| SignatureCodec.ConvertSingleString | src/LedgerUtils.ts:229-244 | a single string comes back as a one-element list, converted exactly when it has 130 characters |
| SignatureCodec.ConvertWithoutRawIsFlatten | src/LedgerUtils.ts:229-244 | input without 130-character strings only gets flattened |
| SignatureCodec.ConvertAppend | src/LedgerUtils.ts:229-244 | conversion commutes with concatenating the inputs |
| TransportManager.SetSlot | src/LedgerUtils.ts:72-83 | setting a slot changes that slot only |
| TransportManager.GetTransport | src/LedgerUtils.ts:65-91 | a registered channel is reused with no effect; an unknown kind fails with no effect; a success leaves the channel in the kind's slot; other slots and the key cache never change |
| TransportManager.GetTransportReuses | src/LedgerUtils.ts:66-67 | with a registered channel the result does not depend on the device at all |
| TransportManager.DisconnectEffect | src/LedgerUtils.ts:73-76 | a disconnect empties the kind's slot, leaves the other slot, drops exactly the cached keys of that kind and keeps the cache well formed |
| TransportManager.CachedHit | src/LedgerUtils.ts:107-110 | a non-empty cached key is returned as it is, with no change and no device involved |
| TransportManager.CachedMiss | src/LedgerUtils.ts:111-114 | on a miss the derived key is stored under `kind:path`, every other key keeps its value, and a failure stores nothing |
| TransportManager.CachedPreserves | src/LedgerUtils.ts:107-115 | a cached lookup never loses a trusted entry and keeps the cache well formed |
| TransportManager.RederiveAfterDisconnect | src/LedgerUtils.ts:73-115 | after a disconnect of a kind, a pair of that kind is no longer a cache hit: the lookup opens a new channel with `create(kind, 60000)`, returns what a fresh `getPublicKey` returns, and stores it |
| TransportManager.GetPublicKeyDerives | src/LedgerUtils.ts:117-148 | when the channel opens, the path parses and the device replies with a length-prefixed key and address, the one command sent has CLA and INS_GET_PUBLIC_KEY, asks to confirm exactly when permission is requested, carries a prefix that reads back as the path, and the key returned is the ASCII text of the address |
| TransportManager.GetPublicKeyUnparsablePath | src/LedgerUtils.ts:120-124 | a path `bip32-path` rejects throws inside the timer callback, so the promise never settles |
| TransportManager.ConvertedSignature | src/LedgerUtils.ts:215-219 | the signature string is the converted 130 hex digits for a reply of at least 65 bytes, else the shorter hex unchanged |
| TransportManager.SignTransactionEffect | src/LedgerUtils.ts:159-224 | signing never changes the cache; `null` fails at once with no effect; a success is one signature, from sending frames that reassemble the canonical payload over the kind's channel and converting the last reply |
| TransportManager.SignTransactionShape | src/LedgerUtils.ts:159-224 | the cache is untouched, `null` fails at once, and a success is exactly one signature |
| LedgerSignatureProvider.ParseAll | src/LedgerSignatureProvider.ts:18 | mapping succeeds exactly when every string has a `:`, giving each string's pair in order |
| LedgerSignatureProvider.New | src/LedgerSignatureProvider.ts:15-25 | no argument gives no pairs, pairs are kept, and strings are parsed one by one (failing exactly when one lacks a `:`) |
| LedgerSignatureProvider.KeysForPreserves | src/LedgerSignatureProvider.ts:31-37 | the key discovery keeps the cache well formed and never loses a trusted entry |
| LedgerSignatureProvider.KeysForEffect | src/LedgerSignatureProvider.ts:31-37 | one key per pair in configuration order, duplicates kept, and each non-empty key is then the cached value of its pair |
| LedgerSignatureProvider.KeysForAllHits | src/LedgerSignatureProvider.ts:31-37 | when every pair has a trusted entry nothing changes and the cached keys are returned |
| LedgerSignatureProvider.SecondCallIsCached | src/LedgerSignatureProvider.ts:31-37 | a second `getAvailableKeys` after one that returned only non-empty keys returns the same keys and state whatever the device does |
| LedgerSignatureProvider.SignEachKeepsCache | src/LedgerSignatureProvider.ts:45-49 | the signing loop never changes the cache |
| LedgerSignatureProvider.SignEachNullIdentity | src/LedgerSignatureProvider.ts:45-49 | a key without a cached identity makes the loop fail with the `null`-identity error and no effect |
| LedgerSignatureProvider.SignEachStep | src/LedgerSignatureProvider.ts:45-49 | a successful loop starts with a successful `signTransaction` of the first key's identity, yielding one signature and leaving the cache alone, followed by a successful loop on the rest |
| LedgerSignatureProvider.SignEachCount | src/LedgerSignatureProvider.ts:45-49 | a successful loop yields exactly one signature per key |
| LedgerSignatureProvider.SignEachIdentities | src/LedgerSignatureProvider.ts:45-49 | a successful loop found a cached identity for every key it signed |
| LedgerSignatureProvider.SignEachEffect | src/LedgerSignatureProvider.ts:45-49 | a success holds one signature per key, and every key had a cached identity |
| LedgerSignatureProvider.SignResult | src/LedgerSignatureProvider.ts:40-54 | a success holds one signature per required-and-available key, passes the transaction through, has no context-free data, and signing leaves the cache as key discovery left it |
| LedgerSignatureProvider.AvailableKeysResolve | src/LedgerSignatureProvider.ts:41-46 | every non-empty available key has a cached identity afterwards |
| LedgerSignatureProvider.SignWithoutPairs | src/LedgerSignatureProvider.ts:40-54 | with no pairs there are no keys and no signatures, and nothing changes |
| CombinedSignatureProvider.AllAvailableKeys | src/CombinedSignatureProvider.ts:30 | one key list per provider in index order, or the first failure |
| CombinedSignatureProvider.ConcatKeysIsFlatten | src/CombinedSignatureProvider.ts:18-24 | the available keys are the providers' lists concatenated in provider order without deduplication, failing exactly when one provider fails |
| CombinedSignatureProvider.AddProviderKeys | src/CombinedSignatureProvider.ts:15-17 | after `addProvider` the keys are the previous ones followed by the new provider's |
| CombinedSignatureProvider.Assign | src/CombinedSignatureProvider.ts:32 | every key of the list now maps to the index, and other keys keep their owner |
| CombinedSignatureProvider.OwnershipLastWins | src/CombinedSignatureProvider.ts:27-33 | a key is owned exactly when some provider advertises it, by the largest index that does |
| CombinedSignatureProvider.OwnedBy | src/CombinedSignatureProvider.ts:34-39 | the reference bucket holds exactly the required keys owned by the provider |
| CombinedSignatureProvider.Buckets | src/CombinedSignatureProvider.ts:34-39 | one bucket per provider |
| CombinedSignatureProvider.BucketsAreOwnedBy | src/CombinedSignatureProvider.ts:34-39 | bucket `i` is exactly the subsequence of `requiredKeys` owned by provider `i` |
| CombinedSignatureProvider.BucketsPartition | src/CombinedSignatureProvider.ts:27-39 | buckets are pairwise disjoint; bucket `i` holds only keys provider `i` advertises; unadvertised keys are dropped; an owned required key lands in its owner's bucket |
| CombinedSignatureProvider.SignFromOrder | src/CombinedSignatureProvider.ts:40-46 | the signatures are the contributions concatenated in provider order; the loop fails exactly when a called provider fails, with the first failure |
| CombinedSignatureProvider.IdleProvidersNotCalled | src/CombinedSignatureProvider.ts:42-46 | only providers with a non-empty bucket are asked, each with the input whose `requiredKeys` is its bucket |
| CombinedSignatureProvider.Sign | src/CombinedSignatureProvider.ts:48-52 | a success passes `serializedTransaction` and `serializedContextFreeData` through |
| CombinedSignatureProvider.SignMerges | src/CombinedSignatureProvider.ts:26-53 | a success returns, in provider order, the signatures each provider gave for its bucket |
| CombinedSignatureProvider.TwoProviderRouting | src/CombinedSignatureProvider.ts:27-39 | with A advertising k1, k2 and B advertising k2, k3, the required k1, k2, k3 go to A as [k1] and to B as [k2, k3] |
| UninitializedKeyMap.AsWrittenNeverYieldsAKey | src/LedgerUtils.ts:58-64 | as declared, a fresh manager fails every key lookup with a `TypeError` and stays as it was |
| UninitializedKeyMap.InitializedMapCaches | src/LedgerUtils.ts:107-115 | with the map initialized empty, a successful lookup caches its key and a second lookup is answered from the cache |
| UninitializedKeyMap.InitializedAgrees | src/LedgerUtils.ts:107-115 | on a defined map, the as-written lookup and the corrected model agree step for step |

## Left out

- Opening WebUSB and Web Bluetooth transports, their timeouts, and the `disconnect` event
  wiring (src/LedgerUtils.ts:70-85). Opening is the `Env.create` parameter, and the
  disconnect handler is the explicit `TransportManager.Disconnect` transition.
- The `setTimeout` wrapper in `getPublicKey`. A `bip32-path` failure inside the timer leaves
  the promise unsettled, which is modelled as the `Unsettled` error.
- Concurrency. Every `await` is a sequential step, `Promise.all` in the combined provider is
  taken in index order, and its failure is the first in index order rather than the first in
  time. Two providers sharing the manager concurrently are not modelled.
- The `CombinedSignatureProvider` providers are pure: `sign` is a function of its
  arguments. The state a Ledger provider changes while inside a combined provider is not
  threaded through.
- The external libraries are function parameters: `ecc.Signature.from(...).toString()`,
  `bip32-path`, `api.deserializeTransaction` and `api.serialize`. The results of all four
  and the failures of the last three are arbitrary. The signature conversion is a total
  function, so its failure (rethrown through the `.catch` at src/LedgerUtils.ts:220-223)
  is not modelled, and `signTransaction` succeeds whenever the exchange does.
- How `hw-transport` encodes an APDU on the wire. A command is a datatype, and `send` gets
  it whole.
- The `asn1-ber` writer's own length encoding beyond the X.690 definite form. Values whose
  length needs more than 126 length octets are a failure of the model's encoder, whatever
  the library would do.
- `parseInt` beyond digit strings: floating-point precision of very long digit strings,
  `Infinity`, and the `0x` prefix (irrelevant with radix 10) are not modelled. Numbers are
  exact integers or `NaN`.
- Keys such as `__proto__` or `hasOwnProperty`, for which a JavaScript object acting as a
  map behaves differently, in the key cache and in `pubKeyMap`.
- The `abis` field of `SignatureProviderArgs` and the unused `zswjsApi` and `transportType`
  fields of `LedgerSignatureProvider`.
- A constructor argument mixing strings and pairs (only the first element's type is
  checked, src/LedgerSignatureProvider.ts:17). The argument is either all strings or all
  pairs.
- `INS_GET_APP_CONFIGURATION` (src/LedgerUtils.ts:19) is declared but never sent.
- `console.error` calls.
- The array copies made by `concat([])` in the `CombinedSignatureProvider` constructor and
  `setProviders`. Sequences are values in the model, so a caller's later change to its
  array cannot reach the provider, and `New`, `SetProviders` and `AddProvider` carry no
  contract of their own. `AddProviderKeys` states what an added provider changes.
- `Bytes.AsciiDecode`: each byte with its top bit cleared, as the `ascii` decoding does.
  Bytes are mapped straight to characters; no other text encoding is modelled.
- `SignatureCodec.IsRawSignature`: counts the characters of a string (Unicode scalar
  values), where `sig.length === 130` (src/LedgerUtils.ts:238) counts UTF-16 code units.
  The two differ only for text with characters outside the Basic Multilingual Plane. In
  the core only ASCII hex reaches this test.
- `LedgerSignatureProvider.New`: the source keeps the caller's pair array, and the pair
  objects in it, by reference in the public `transportPathPairs` field
  (src/LedgerSignatureProvider.ts:21). A later change the caller makes to that array or to
  a pair changes what `getAvailableKeys` and `sign` use. The model treats the pairs as a
  value fixed at construction, and aliasing is not modelled.
- `Apdu.ParsePublicKeyResponse`: a reply too short to hold its declared lengths is read
  with `undefined` treated as 0 and the slice clamped. The contract states only the length
  bound and the round trip on well-formed replies.
- `LedgerSignatureProvider.Sign`: requires a well-formed cache (unique `:`-bearing keys),
  which every reachable manager state satisfies.

## Findings

| source | as written | input that shows it | evidently intended | confidence | as-written member | corrected member |
|---|---|---|---|---|---|---|
| src/LedgerUtils.ts:61 | `publicKeyMap` is declared without an initializer and the constructor is empty, so it is `undefined`; `getPublicKeyCached` reads `this.publicKeyMap.hasOwnProperty` and throws a `TypeError` | a fresh `baseTransportManager` and any provider with one pair, e.g. `usb:0`, calling `getAvailableKeys()` | the key map starts as an empty object `{}`, like `transportMap`, so the first lookup derives and caches the key | high, not executed | UninitializedKeyMap.AsWrittenNeverYieldsAKey | UninitializedKeyMap.InitializedMapCaches |
