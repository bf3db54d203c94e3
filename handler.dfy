/**
 * The gRPC handler (package grpchandler): each remote operation is one
 * use-case call whose error is either turned into a status with a code or
 * handed back to the gRPC runtime as it is. The handler is modelled as
 * functions from the use-case outcome to the reply.
 */
module GrpcHandler {
  import opened Wrappers
  import opened Grpc
  import St = Storage
  import U = ServerUseCase

  /** A reply: a response, a status error built from an error, or the error itself. */
  datatype Reply<T> = Response(body: T) | Status(code: Code, cause: U.Error) | Plain(cause: U.Error)

  /**
   * What the client observes of a reply. The gRPC runtime sends a status
   * error with its own code, and it finds a status error inside a %w chain
   * too: the failure of grpc.SetHeader is a status with code Internal, so a
   * chain ending in it is sent as Internal. Any other error is sent with
   * code Unknown.
   */
  function Transmit<T>(r: Reply<T>): (c: CallResult<T>)
    ensures r.Response? <==> c.Answer?
    ensures r.Response? ==> c.response == r.body
    ensures r.Status? ==> c == Failed(StatusError(r.code))
    ensures r.Plain? && U.Root(r.cause) == U.SetHeaderFailed ==> c == Failed(StatusError(Internal))
    ensures r.Plain? && U.Root(r.cause) != U.SetHeaderFailed ==> c == Failed(StatusError(Unknown))
  {
    match r
    case Response(b) => Answer(b)
    case Status(code, _) => Failed(StatusError(code))
    case Plain(e) => Failed(StatusError(if U.Root(e) == U.SetHeaderFailed then Internal else Unknown))
  }

  /**
   * Auth: an error whose chain ends in the store's NotFound or in
   * InvalidPassword becomes NotFound; every other error, InvalidToken
   * included, passes through. The token is not put in the response.
   */
  function Auth(token: string, err: Option<U.Error>): (r: Reply<AuthResponse>)
    ensures err.None? ==> r == Response(AuthResponse)
    ensures err.Some? ==> !r.Response? && r.cause == err.value
    ensures err.Some? && (U.Root(err.value) == U.Store(St.NotFound) || U.Root(err.value) == U.InvalidPassword) ==>
      r == Status(NotFound, err.value)
    ensures err.Some? && U.Root(err.value) != U.Store(St.NotFound) && U.Root(err.value) != U.InvalidPassword ==>
      r == Plain(err.value)
  {
    match err
    case None => Response(AuthResponse)
    case Some(e) =>
      U.IsRoot(e, U.Store(St.NotFound));
      U.IsRoot(e, U.InvalidPassword);
      if U.Is(e, U.Store(St.NotFound)) || U.Is(e, U.InvalidPassword) then Status(NotFound, e)
      else Plain(e)
  }

  /**
   * Register: an error whose chain ends in AlreadyExists becomes
   * AlreadyExists, others pass through; on any error the token the use case
   * returned is dropped, and on success the response is empty.
   */
  function Register(token: string, err: Option<U.Error>): (r: Reply<RegisterResponse>)
    ensures err.None? ==> r == Response(RegisterResponse)
    ensures err.Some? ==> !r.Response? && r.cause == err.value
    ensures err.Some? && U.Root(err.value) == U.Store(St.AlreadyExists) ==> r == Status(AlreadyExists, err.value)
    ensures err.Some? && U.Root(err.value) != U.Store(St.AlreadyExists) ==> r == Plain(err.value)
  {
    match err
    case None => Response(RegisterResponse)
    case Some(e) =>
      U.IsRoot(e, U.Store(St.AlreadyExists));
      if U.Is(e, U.Store(St.AlreadyExists)) then Status(AlreadyExists, e)
      else Plain(e)
  }

  /**
   * Get: the value on success; the branch meant for NotFound does nothing,
   * so every error passes through unchanged.
   */
  function Get(outcome: Result<string, U.Error>): (r: Reply<GetResponse>)
    ensures outcome.Ok? ==> r == Response(GetResponse(outcome.value))
    ensures outcome.Err? ==> r == Plain(outcome.error)
  {
    match outcome
    case Ok(v) => Response(GetResponse(v))
    case Err(e) =>
      if e == U.Store(St.NotFound) then Plain(e) else Plain(e)
  }

  /** Set: an empty response, or the error unchanged. */
  function Set(err: Option<U.Error>): (r: Reply<SetResponse>)
    ensures err.None? <==> r.Response?
    ensures err.Some? ==> r == Plain(err.value)
  {
    match err
    case None => Response(SetResponse)
    case Some(e) => Plain(e)
  }

  /** GetAllNames: the names as `vars`, or the error unchanged. */
  function GetAllNames(outcome: Result<seq<string>, U.Error>): (r: Reply<GetAllNamesResponse>)
    ensures outcome.Ok? ==> r == Response(GetAllNamesResponse(outcome.value))
    ensures outcome.Err? ==> r == Plain(outcome.error)
  {
    match outcome
    case Ok(keys) => Response(GetAllNamesResponse(keys))
    case Err(e) => Plain(e)
  }

  /** Delete: an error whose chain ends in the store's NotFound becomes NotFound, others pass through. */
  function Delete(err: Option<U.Error>): (r: Reply<DeleteResponse>)
    ensures err.None? ==> r == Response(DeleteResponse)
    ensures err.Some? && U.Root(err.value) == U.Store(St.NotFound) ==> r == Status(NotFound, err.value)
    ensures err.Some? && U.Root(err.value) != U.Store(St.NotFound) ==> r == Plain(err.value)
  {
    match err
    case None => Response(DeleteResponse)
    case Some(e) =>
      U.IsRoot(e, U.Store(St.NotFound));
      if U.Is(e, U.Store(St.NotFound)) then Status(NotFound, e) else Plain(e)
  }
}
