/**
 * The parts of the remote call layer the core touches, as plain values:
 * status codes, call metadata, the messages of the SecretKeeper service and
 * what a client observes of one call.
 */
module Grpc {

  /** The status codes of gRPC. */
  datatype Code =
    | OK | Canceled | Unknown | InvalidArgument | DeadlineExceeded | NotFound
    | AlreadyExists | PermissionDenied | ResourceExhausted | FailedPrecondition
    | Aborted | OutOfRange | Unimplemented | Internal | Unavailable | DataLoss
    | Unauthenticated

  /** Call metadata: each (lower-case) key holds a list of values. */
  type MD = map<string, seq<string>>

  /** The metadata key that carries the session token. */
  const TokenKey := "token"

  /** md.Get(key): the values under a lower-case key, none when it is absent. */
  function Values(md: MD, key: string): seq<string>
  {
    if key in md then md[key] else []
  }

  // The response messages of the service.
  datatype AuthResponse = AuthResponse
  datatype RegisterResponse = RegisterResponse
  datatype GetResponse = GetResponse(value: string)
  datatype SetResponse = SetResponse
  datatype GetAllNamesResponse = GetAllNamesResponse(vars: seq<string>)
  datatype DeleteResponse = DeleteResponse

  /** The error a client call returns: a status, or some error that is not one. */
  datatype RpcError = StatusError(code: Code) | NonStatusError

  /** What a client observes of one call. */
  datatype CallResult<T> = Answer(response: T) | Failed(err: RpcError)
}
