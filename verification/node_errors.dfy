/**
 * The per-item operation errors the Random node raises. In the node every one
 * of them is a NodeOperationError carrying the index of the failing item; the
 * human-readable (Portuguese) message is not modelled, except for the message
 * of a transport error, which the node copies into the error it re-raises.
 */
module NodeErrors {

  datatype ErrorKind =
    | InvalidOperation            // the selected operation is not "generate"
    | NonFiniteParameter          // min or max is NaN or infinite
    | OutOfRange                  // normalised min/max outside [-1e9, 1e9]
    | InvalidResponse             // the response body holds no integer
    | TransportFailure(message: string)  // the HTTP call itself failed

  /** An operation error tagged with the index of the item that raised it. */
  datatype NodeError = NodeError(kind: ErrorKind, itemIndex: nat)
}
