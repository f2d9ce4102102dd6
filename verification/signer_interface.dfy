/** The signature-provider contract both providers implement (`SignatureProviderArgs` in,
    `PushTransactionArgs` out). */
module SignerInterface {
  import opened Wrappers
  import opened Bytes

  datatype SignatureProviderArgs = SignatureProviderArgs(
    chainId: string,
    requiredKeys: seq<string>,
    serializedTransaction: seq<byte>,
    serializedContextFreeData: Option<seq<byte>>)

  datatype PushTransactionArgs = PushTransactionArgs(
    signatures: seq<string>,
    serializedTransaction: seq<byte>,
    serializedContextFreeData: Option<seq<byte>>)
}
