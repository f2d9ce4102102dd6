/** `serialize` (src/LedgerUtils.ts:261-313): the transaction re-encoded as the fixed
    sequence of octet-string elements the device's signing firmware parses. */
module Canonicalizer {
  import opened Wrappers
  import opened Errors
  import opened Bytes
  import opened Seqs
  import opened Ber

  datatype PermissionLevel = PermissionLevel(actor: string, permission: string)

  /** An action as `deserializeTransaction` returns it; its data hex is kept as bytes. */
  datatype Action = Action(account: string, name: string, authorization: seq<PermissionLevel>, data: seq<byte>)

  /** The fields of a deserialized transaction that `serialize` reads. */
  datatype Transaction = Transaction(
    expiration: string,
    refBlockNum: int,
    refBlockPrefix: int,
    maxCpuUsageMs: int,
    delaySec: int,
    actions: seq<Action>)

  /** The type names passed to `api.serialize`. */
  datatype FieldType = Checksum256 | TimePointSec | Uint16 | Uint32 | VarUint32 | Uint8 | Name

  datatype FieldValue = Text(text: string) | Number(n: int)

  /** One element to write: a value for the per-type encoder, or bytes written as they are. */
  datatype Field = Typed(ty: FieldType, value: FieldValue) | Raw(bytes: seq<byte>)

  /** `api.deserializeTransaction`: `None` when it throws. */
  type Deserializer = seq<byte> -> Option<Transaction>

  /** `createNewBuffer(api, type, data)`: the bytes `api.serialize` produces; `None` when it throws. */
  type FieldEncoder = (FieldType, FieldValue) -> Option<seq<byte>>

  /** `Buffer.alloc(32, 0).toString('hex')`: the all-zero context-free-data digest. */
  function ZeroChecksum(): (r: string)
    ensures |r| == 64 && forall i | 0 <= i < 64 :: r[i] == '0'
  {
    HexOfZeros(32);
    Hex(Alloc(32))
  }

  /** Lines 282-285. */
  function AuthorizationFields(auths: seq<PermissionLevel>): (r: seq<Field>)
    ensures |r| == 2 * |auths|
  {
    if |auths| == 0 then []
    else [Typed(Name, Text(auths[0].actor)), Typed(Name, Text(auths[0].permission))]
         + AuthorizationFields(auths[1..])
  }

  /** Lines 278-295: account, name, authorization count, the authorizations, the data
      length, then the data bytes themselves. */
  function ActionFields(a: Action): seq<Field>
  {
    [Typed(Name, Text(a.account)), Typed(Name, Text(a.name)), Typed(Uint8, Number(|a.authorization|))]
    + AuthorizationFields(a.authorization)
    + [Typed(Uint8, Number(|a.data|)), Raw(a.data)]
  }

  function ActionsFields(actions: seq<Action>): seq<Field>
  {
    if |actions| == 0 then [] else ActionFields(actions[0]) + ActionsFields(actions[1..])
  }

  /** Lines 266-299, in order. */
  function TransactionFields(chainId: string, tx: Transaction): seq<Field>
  {
    [ Typed(Checksum256, Text(chainId)),
      Typed(TimePointSec, Text(tx.expiration)),
      Typed(Uint16, Number(tx.refBlockNum)),
      Typed(Uint32, Number(tx.refBlockPrefix)),
      Typed(VarUint32, Number(0)),
      Typed(Uint8, Number(tx.maxCpuUsageMs)),
      Typed(VarUint32, Number(tx.delaySec)),
      Typed(Uint8, Number(0)),
      Typed(Uint8, Number(|tx.actions|)) ]
    + ActionsFields(tx.actions)
    + [ Typed(Uint8, Number(0)),
        Typed(Checksum256, Text(ZeroChecksum())) ]
  }

  /** The number of elements per action: five, plus two per authorization. */
  function ActionElementCount(actions: seq<Action>): nat
  {
    if |actions| == 0 then 0 else 5 + 2 * |actions[0].authorization| + ActionElementCount(actions[1..])
  }

  lemma {:induction false} ActionsFieldsCount(actions: seq<Action>)
    ensures |ActionsFields(actions)| == ActionElementCount(actions)
  {
    if |actions| > 0 {
      ActionsFieldsCount(actions[1..]);
    }
  }

  /** The element layout: `11 + sum(5 + 2 * |authorization|)` elements, the chain id first,
      the constant zero max-net-usage (line 270) and context-free-action count (line 274),
      and the zero extensions count and zero digest last (lines 298-299). */
  lemma FieldLayout(chainId: string, tx: Transaction)
    ensures var fs := TransactionFields(chainId, tx);
      && |fs| == 11 + ActionElementCount(tx.actions)
      && fs[0] == Typed(Checksum256, Text(chainId))
      && fs[4] == Typed(VarUint32, Number(0))
      && fs[7] == Typed(Uint8, Number(0))
      && fs[8] == Typed(Uint8, Number(|tx.actions|))
      && fs[|fs| - 2] == Typed(Uint8, Number(0))
      && fs[|fs| - 1] == Typed(Checksum256, Text(ZeroChecksum()))
  {
    ActionsFieldsCount(tx.actions);
  }

  /** Every element's value bytes, or `None` when an encoder throws. */
  function EncodeFields(fields: seq<Field>, encode: FieldEncoder): (r: Option<seq<seq<byte>>>)
    ensures r.Some? ==> |r.value| == |fields|
    ensures r.Some? <==> forall i | 0 <= i < |fields| :: fields[i].Typed? ==> encode(fields[i].ty, fields[i].value).Some?
    ensures r.Some? ==> forall i | 0 <= i < |fields| ::
      r.value[i] == match fields[i]
        case Raw(bytes) => bytes
        case Typed(ty, value) => encode(ty, value).value
  {
    if |fields| == 0 then Some([])
    else
      var head := match fields[0]
        case Raw(bytes) => Some(bytes)
        case Typed(ty, value) => encode(ty, value);
      match (head, EncodeFields(fields[1..], encode))
      case (Some(h), Some(t)) => Some([h] + t)
      case _ => None
  }

  /** `serialize` inside the `try` of lines 170-175: any throw, from deserialization, an
      encoder or the writer, becomes "Unable to deserialize transaction". */
  function Serialize(chainId: string, serializedTransaction: seq<byte>, deserialize: Deserializer, encode: FieldEncoder)
    : Result<seq<byte>, Errors.Error>
  {
    match deserialize(serializedTransaction)
    case None => Failure(UnableToDeserialize)
    case Some(tx) =>
      match EncodeFields(TransactionFields(chainId, tx), encode)
      case None => Failure(UnableToDeserialize)
      case Some(values) =>
        match WriteOctetStrings(values)
        case None => Failure(UnableToDeserialize)
        case Some(bytes) => Success(bytes)
  }

  /** A successful canonicalization is exactly the element values of the layout, in order,
      and is never empty (so the frame loop always runs); every failure is the one error. */
  lemma SerializeLayout(chainId: string, serializedTransaction: seq<byte>, deserialize: Deserializer, encode: FieldEncoder)
    ensures var r := Serialize(chainId, serializedTransaction, deserialize, encode);
      && (r.Failure? ==> r.error == UnableToDeserialize)
      && (deserialize(serializedTransaction).None? ==> r.Failure?)
      && (r.Success? ==>
            var tx := deserialize(serializedTransaction).value;
            var values := EncodeFields(TransactionFields(chainId, tx), encode).value;
            && deserialize(serializedTransaction).Some?
            && EncodeFields(TransactionFields(chainId, tx), encode).Some?
            && |values| == 11 + ActionElementCount(tx.actions)
            && ReadOctetStrings(r.value) == Some(values)
            && |r.value| >= 22)
  {
    var r := Serialize(chainId, serializedTransaction, deserialize, encode);
    if r.Success? {
      var tx := deserialize(serializedTransaction).value;
      var values := EncodeFields(TransactionFields(chainId, tx), encode).value;
      FieldLayout(chainId, tx);
      OctetStringsRoundTrip(values);
      WrittenLength(values);
    }
  }
}
