/**
 * The client's use case (package usecase on the client side): it turns the
 * status of each remote call into a client error, and after Auth and
 * Register it moves the token the server sent in the response header into
 * the outgoing metadata of the context used for later calls.
 *
 * A call is given by what the client observes of it (`Grpc.CallResult`) and by
 * the response header it delivers; every call stores that header in the
 * `header` field, as grpc.Header(uc.header) does.
 */
module ClientUseCase {
  import opened Wrappers
  import Grpc

  /**
   * ErrUnavailable, ErrInvalidPassword, ErrUsernameExists, ErrSecretNotFound;
   * the error a call returned; an error wrapped with a message (%w); the
   * "key not found" message, which wraps nothing; "failed to get token".
   */
  datatype Error =
    | Unavailable
    | InvalidPassword
    | UsernameExists
    | SecretNotFound
    | Rpc(cause: Grpc.RpcError)
    | Wrapped(message: string, inner: Error)
    | KeyNotFound(key: string)
    | NoToken

  /** errors.Is */
  predicate Is(e: Error, target: Error)
  {
    e == target || (e.Wrapped? && Is(e.inner, target))
  }

  /** A client context as far as the calls look at it: its outgoing metadata. */
  datatype Context = Context(outgoing: Option<Grpc.MD>)

  /**
   * The error GetSecret returns: Unavailable and NotFound become the client's
   * own errors, any other status is returned unchanged.
   */
  function GetSecretError(e: Grpc.RpcError): (r: Error)
    ensures Is(r, Unavailable) <==> e == Grpc.StatusError(Grpc.Unavailable)
    ensures e == Grpc.StatusError(Grpc.Unavailable) ==> r == Unavailable
    ensures r == SecretNotFound <==> e == Grpc.StatusError(Grpc.NotFound)
    ensures e.StatusError? && e.code != Grpc.Unavailable && e.code != Grpc.NotFound ==> r == Rpc(e)
    ensures e.NonStatusError? ==> r == Wrapped("failed to get", Rpc(e))
  {
    match e
    case NonStatusError => Wrapped("failed to get", Rpc(e))
    case StatusError(code) =>
      if code == Grpc.Unavailable then Unavailable
      else if code == Grpc.NotFound then SecretNotFound
      else Rpc(e)
  }

  /** The error SetSecret returns: always wrapped; it wraps Unavailable exactly for that status. */
  function SetSecretError(e: Grpc.RpcError): (r: Error)
    ensures r.Wrapped? && r.message == "failed to set"
    ensures Is(r, Unavailable) <==> e == Grpc.StatusError(Grpc.Unavailable)
    ensures e == Grpc.StatusError(Grpc.Unavailable) ==> r.inner == Unavailable
    ensures e != Grpc.StatusError(Grpc.Unavailable) ==> r.inner == Rpc(e)
  {
    match e
    case NonStatusError => Wrapped("failed to set", Rpc(e))
    case StatusError(code) =>
      if code == Grpc.Unavailable then Wrapped("failed to set", Unavailable)
      else Wrapped("failed to set", Rpc(e))
  }

  /**
   * The error DeleteSecret returns: Unavailable is wrapped; NotFound becomes
   * a message naming the key, which is not ErrSecretNotFound.
   */
  function DeleteSecretError(key: string, e: Grpc.RpcError): (r: Error)
    ensures Is(r, Unavailable) <==> e == Grpc.StatusError(Grpc.Unavailable)
    ensures !Is(r, SecretNotFound)
    ensures e == Grpc.StatusError(Grpc.NotFound) ==> r == KeyNotFound(key)
    ensures e == Grpc.StatusError(Grpc.Unavailable) ==> r == Wrapped("failed to delete", Unavailable)
    ensures e != Grpc.StatusError(Grpc.NotFound) && e != Grpc.StatusError(Grpc.Unavailable) ==>
      r == Wrapped("failed to delete", Rpc(e))
  {
    match e
    case NonStatusError => Wrapped("failed to delete", Rpc(e))
    case StatusError(code) =>
      if code == Grpc.Unavailable then Wrapped("failed to delete", Unavailable)
      else if code == Grpc.NotFound then KeyNotFound(key)
      else Wrapped("failed to delete", Rpc(e))
  }

  /** The error GetAllNames returns: every failure wrapped as it is. */
  function GetAllNamesError(e: Grpc.RpcError): (r: Error)
    ensures r == Wrapped("failed to get all", Rpc(e))
    ensures !Is(r, Unavailable)
  {
    Wrapped("failed to get all", Rpc(e))
  }

  /** The error Auth returns: NotFound means wrong credentials. */
  function AuthError(e: Grpc.RpcError): (r: Error)
    ensures r == Unavailable <==> e == Grpc.StatusError(Grpc.Unavailable)
    ensures r == InvalidPassword <==> e == Grpc.StatusError(Grpc.NotFound)
    ensures e != Grpc.StatusError(Grpc.Unavailable) && e != Grpc.StatusError(Grpc.NotFound) ==>
      r == Wrapped("failed to auth", Rpc(e))
  {
    match e
    case NonStatusError => Wrapped("failed to auth", Rpc(e))
    case StatusError(code) =>
      if code == Grpc.Unavailable then Unavailable
      else if code == Grpc.NotFound then InvalidPassword
      else Wrapped("failed to auth", Rpc(e))
  }

  /**
   * The error Register returns: AlreadyExists means the name is taken. A
   * status other than those two is wrapped under the message of Auth.
   */
  function RegisterError(e: Grpc.RpcError): (r: Error)
    ensures r == Unavailable <==> e == Grpc.StatusError(Grpc.Unavailable)
    ensures r == UsernameExists <==> e == Grpc.StatusError(Grpc.AlreadyExists)
    ensures e.NonStatusError? ==> r == Wrapped("failed to register", Rpc(e))
    ensures e.StatusError? && e.code != Grpc.Unavailable && e.code != Grpc.AlreadyExists ==>
      r == Wrapped("failed to auth", Rpc(e))
  {
    match e
    case NonStatusError => Wrapped("failed to register", Rpc(e))
    case StatusError(code) =>
      if code == Grpc.Unavailable then Unavailable
      else if code == Grpc.AlreadyExists then UsernameExists
      else Wrapped("failed to auth", Rpc(e))
  }

  class UseCase {
    /** The response header of the latest call (grpc.Header(uc.header)). */
    var header: Grpc.MD

    /** New(addr, header): the connection is not part of the model. */
    constructor (header: Grpc.MD)
      ensures this.header == header
    {
      this.header := header;
    }

    /**
     * addTokenToContext: fails, returning `ctx` itself, when the captured
     * header holds no token; otherwise it returns a context whose outgoing
     * metadata carries exactly the header's first token.
     */
    function AddTokenToContext(ctx: Context): (r: (Context, Option<Error>))
      reads this
      ensures Grpc.Values(header, Grpc.TokenKey) == [] ==> r == (ctx, Some(NoToken))
      ensures Grpc.Values(header, Grpc.TokenKey) != [] ==> r.1.None?
      ensures r.1.None? ==> r.0.outgoing.Some?
      ensures r.1.None? ==> Grpc.Values(r.0.outgoing.value, Grpc.TokenKey) == [Grpc.Values(header, Grpc.TokenKey)[0]]
      ensures r.1.None? ==> r.0.outgoing.value.Keys == {Grpc.TokenKey}
    {
      var tokens := Grpc.Values(header, Grpc.TokenKey);
      if |tokens| == 0 then (ctx, Some(NoToken))
      else
        var token := tokens[0];
        var md := map[Grpc.TokenKey := [token]];
        (Context(Some(md)), None)
    }

    method GetSecret(key: string, call: Grpc.CallResult<Grpc.GetResponse>, received: Grpc.MD) returns (r: Result<string, Error>)
      modifies this
      ensures header == received
      ensures call.Answer? ==> r == Ok(call.response.value)
      ensures call.Failed? ==> r == Err(GetSecretError(call.err))
    {
      header := received;
      match call
      case Failed(e) => r := Err(GetSecretError(e));
      case Answer(resp) => r := Ok(resp.value);
    }

    method SetSecret(key: string, value: string, call: Grpc.CallResult<Grpc.SetResponse>, received: Grpc.MD) returns (err: Option<Error>)
      modifies this
      ensures header == received
      ensures call.Answer? <==> err.None?
      ensures call.Failed? ==> err == Some(SetSecretError(call.err))
    {
      header := received;
      match call
      case Failed(e) => err := Some(SetSecretError(e));
      case Answer(_) => err := None;
    }

    method DeleteSecret(key: string, call: Grpc.CallResult<Grpc.DeleteResponse>, received: Grpc.MD) returns (err: Option<Error>)
      modifies this
      ensures header == received
      ensures call.Answer? <==> err.None?
      ensures call.Failed? ==> err == Some(DeleteSecretError(key, call.err))
    {
      header := received;
      match call
      case Failed(e) => err := Some(DeleteSecretError(key, e));
      case Answer(_) => err := None;
    }

    method GetAllNames(call: Grpc.CallResult<Grpc.GetAllNamesResponse>, received: Grpc.MD) returns (r: Result<seq<string>, Error>)
      modifies this
      ensures header == received
      ensures call.Answer? ==> r == Ok(call.response.vars)
      ensures call.Failed? ==> r == Err(GetAllNamesError(call.err))
    {
      header := received;
      match call
      case Failed(e) => r := Err(GetAllNamesError(e));
      case Answer(resp) => r := Ok(resp.vars);
    }

    /**
     * Auth: on a failed call the input context comes back with the mapped
     * error; on success the result is addTokenToContext over the header the
     * call delivered.
     */
    method Auth(ctx: Context, call: Grpc.CallResult<Grpc.AuthResponse>, received: Grpc.MD) returns (ctx': Context, err: Option<Error>)
      modifies this
      ensures header == received
      ensures call.Failed? ==> ctx' == ctx && err == Some(AuthError(call.err))
      ensures call.Answer? ==> (ctx', err) == AddTokenToContext(ctx)
    {
      header := received;
      match call
      case Failed(e) =>
        return ctx, Some(AuthError(e));
      case Answer(_) =>
        var r := AddTokenToContext(ctx);
        ctx', err := r.0, r.1;
    }

    /** Register: as Auth, with Register's error mapping. */
    method Register(ctx: Context, call: Grpc.CallResult<Grpc.RegisterResponse>, received: Grpc.MD) returns (ctx': Context, err: Option<Error>)
      modifies this
      ensures header == received
      ensures call.Failed? ==> ctx' == ctx && err == Some(RegisterError(call.err))
      ensures call.Answer? ==> (ctx', err) == AddTokenToContext(ctx)
    {
      header := received;
      match call
      case Failed(e) =>
        return ctx, Some(RegisterError(e));
      case Answer(_) =>
        var r := AddTokenToContext(ctx);
        ctx', err := r.0, r.1;
    }
  }
}
