/** Everything the modelled code can throw, or reject a promise with. */
module Errors {

  datatype Error =
    /** `"Invalid transport path pair string!"`: an identity string without `:`. */
    | InvalidTransportPathPair
    /** `"Unknown transport type!"`: a channel kind other than `usb` or `bluetooth`. */
    | UnknownTransportType
    /** A failure reported by a collaborator (transport creation, a device exchange,
        the derivation-path parser, another signature provider), propagated unwrapped. */
    | Collaborator(code: nat)
    /** `"Unable to deserialize transaction"`: anything thrown while canonicalizing. */
    | UnableToDeserialize
    /** The `RangeError` of a 4-byte write past the end of a frame buffer. */
    | IndexOutOfRange
    /** The `TypeError` of reading `transportType` of a `null` identity. */
    | NullIdentity
    /** The `TypeError` of reading `slice` of an `undefined` device response. */
    | UndefinedResponse
    /** The `TypeError` of reading a property of the never-initialized key map. */
    | UndefinedKeyMap
    /** The returned promise never settles: an exception escaped from a timer callback. */
    | Unsettled
}
