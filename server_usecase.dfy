/**
 * The server's session logic (package usecase): it takes the session token
 * from the incoming call metadata or mints one, binds minted tokens to a
 * username, checks passwords, and resolves the acting user of every data
 * operation from the token before delegating to the store.
 *
 * What the Go code reaches through `context.Context` is a `Context` value
 * here: the incoming metadata, the answer of the UUID generator for this
 * call, and whether grpc.SetHeader accepts a header. The header that
 * storeToken sets is returned as an out-parameter.
 */
module ServerUseCase {
  import opened Wrappers
  import B = Backend
  import St = Storage
  import Grpc

  /**
   * The errors of this layer: a store error, the two errors the layer adds,
   * the failures of the UUID generator and of grpc.SetHeader, and an error
   * wrapped with the name of the step that failed (fmt.Errorf with %w).
   */
  datatype Error =
    | Store(cause: St.Error)
    | InvalidToken
    | InvalidPassword
    | TokenGeneration
    | SetHeaderFailed
    | Wrapped(context: string, inner: Error)

  /** errors.Is: `target` is `e` or one of the errors `e` wraps. */
  predicate Is(e: Error, target: Error)
  {
    e == target || (e.Wrapped? && Is(e.inner, target))
  }

  /** The innermost error of a chain of wrappings. */
  function Root(e: Error): (r: Error)
    ensures !r.Wrapped?
  {
    if e.Wrapped? then Root(e.inner) else e
  }

  /** For a sentinel error, errors.Is looks exactly at the end of the chain. */
  lemma {:induction false} IsRoot(e: Error, target: Error)
    requires !target.Wrapped?
    ensures Is(e, target) <==> Root(e) == target
  {
    if e.Wrapped? {
      IsRoot(e.inner, target);
    }
  }

  /** The request context as far as this layer looks at it. */
  datatype Context = Context(incoming: Option<Grpc.MD>, uuid: Option<string>, canSetHeader: bool)

  /** getOrCreateToken's answer: the token and whether it came with the call. */
  datatype Token = Token(existed: bool, value: string)

  /** The call carries incoming metadata with at least one "token" value. */
  predicate HasToken(ctx: Context)
  {
    ctx.incoming.Some? && Grpc.Values(ctx.incoming.value, Grpc.TokenKey) != []
  }

  /** The first incoming "token" value. */
  function FirstToken(ctx: Context): string
    requires HasToken(ctx)
  {
    Grpc.Values(ctx.incoming.value, Grpc.TokenKey)[0]
  }

  /**
   * getOrCreateToken: the incoming token when there is one, used as it is;
   * otherwise a freshly generated one, or the generator's failure.
   */
  function GetOrCreateToken(ctx: Context): (r: Result<Token, Error>)
    ensures r.Ok? && r.value.existed <==> HasToken(ctx)
    ensures HasToken(ctx) ==> r.value.value == FirstToken(ctx)
    ensures r.Ok? && !r.value.existed ==> ctx.uuid == Some(r.value.value)
    ensures r.Err? <==> !HasToken(ctx) && ctx.uuid.None?
    ensures r.Err? ==> r.error == TokenGeneration
  {
    if ctx.incoming.None? then
      (if ctx.uuid.Some? then Ok(Token(false, ctx.uuid.value)) else Err(TokenGeneration))
    else
      var values := Grpc.Values(ctx.incoming.value, Grpc.TokenKey);
      if |values| == 0 then
        (if ctx.uuid.Some? then Ok(Token(false, ctx.uuid.value)) else Err(TokenGeneration))
      else
        Ok(Token(true, values[0]))
  }

  /**
   * After the first step of Register and Auth the call has a usable token:
   * it came with the call, or a minted one was announced and stored.
   */
  predicate TokenReady(ctx: Context, f: B.Faults)
  {
    HasToken(ctx) || (ctx.uuid.Some? && ctx.canSetHeader && f.tokenSet.None?)
  }

  /**
   * The error storeToken fails with when a minted token is not ready: the
   * refused header, or else the classified error of the token write.
   */
  function StoreTokenError(ctx: Context, f: B.Faults): Error
    requires !ctx.canSetHeader || f.tokenSet.Some?
  {
    if !ctx.canSetHeader then SetHeaderFailed else Store(St.InsertError(f.tokenSet.value))
  }

  /** The token Register and Auth work with, when getOrCreateToken succeeds. */
  function SessionToken(ctx: Context): string
    requires HasToken(ctx) || ctx.uuid.Some?
  {
    if HasToken(ctx) then FirstToken(ctx) else ctx.uuid.value
  }

  class UseCase {
    const storage: St.Storage

    constructor (storage: St.Storage)
      ensures this.storage == storage
    {
      this.storage := storage;
    }

    /**
     * getUsernameFromContext: the user bound to the incoming token. It never
     * mints a session: without an incoming token it fails with InvalidToken
     * (or with the generator's failure, since it still asks for a token).
     */
    function GetUsernameFromContext(ctx: Context, f: B.Faults): (r: Result<string, Error>)
      reads storage
      ensures r.Ok? <==> HasToken(ctx) && f.tokenGet.None? && FirstToken(ctx) in storage.tokens
      ensures r.Ok? ==> r.value == storage.tokens[FirstToken(ctx)]
      ensures !HasToken(ctx) && ctx.uuid.Some? ==> r == Err(Wrapped("getOrCreateToken", InvalidToken))
      ensures !HasToken(ctx) && ctx.uuid.None? ==> r == Err(Wrapped("getOrCreateToken", TokenGeneration))
      ensures HasToken(ctx) && r.Err? ==>
        r == Err(Wrapped("getUsername", Store(storage.GetUsername(FirstToken(ctx), f).error)))
    {
      match GetOrCreateToken(ctx)
      case Err(e) => Err(Wrapped("getOrCreateToken", e))
      case Ok(t) =>
        if !t.existed then Err(Wrapped("getOrCreateToken", InvalidToken))
        else match storage.GetUsername(t.value, f)
          case Err(e) => Err(Wrapped("getUsername", Store(e)))
          case Ok(username) => Ok(username)
    }

    /**
     * validateToken: the token is valid exactly when it resolves to some
     * user; a negative answer always comes with the lookup's error.
     */
    function ValidateToken(token: string, f: B.Faults): (r: Result<bool, St.Error>)
      reads storage
      ensures r.Ok? ==> r.value
      ensures r.Ok? <==> f.tokenGet.None? && token in storage.tokens
      ensures r.Err? ==> r.error == storage.GetUsername(token, f).error
    {
      match storage.GetUsername(token, f)
      case Err(e) => Err(e)
      case Ok(_) => Ok(true)
    }

    /** storeToken: announce the token in the response header, then bind it. */
    method StoreToken(ctx: Context, token: string, username: string, f: B.Faults)
      returns (err: Option<Error>, header: Option<string>)
      modifies storage
      ensures storage.users == old(storage.users)
      ensures header == if ctx.canSetHeader then Some(token) else None
      ensures err.None? <==> ctx.canSetHeader && f.tokenSet.None?
      ensures storage.tokens == if err.None? then old(storage.tokens)[token := username] else old(storage.tokens)
      ensures !ctx.canSetHeader ==> err == Some(SetHeaderFailed)
      ensures ctx.canSetHeader && f.tokenSet.Some? ==> err == Some(Store(St.InsertError(f.tokenSet.value)))
    {
      if !ctx.canSetHeader {
        return Some(SetHeaderFailed), None;
      }
      header := Some(token);
      var e := storage.AddToken(token, username, f);
      err := if e.Some? then Some(Store(e.value)) else None;
    }

    /**
     * Register: a minted token is bound to `username` before the user is
     * created, and stays bound when the creation fails; the token is
     * returned together with that error. An incoming token is used as it is
     * and nothing is written to the token table.
     */
    method Register(ctx: Context, username: string, password: string, f: B.Faults)
      returns (token: string, err: Option<Error>, header: Option<string>)
      modifies storage
      ensures !HasToken(ctx) && ctx.uuid.None? ==>
        token == "" && err == Some(Wrapped("getOrCreateToken", TokenGeneration)) &&
        header.None? && storage.tokens == old(storage.tokens)
      ensures (HasToken(ctx) || ctx.uuid.Some?) ==> token == SessionToken(ctx)
      ensures HasToken(ctx) ==> header.None? && storage.tokens == old(storage.tokens)
      ensures !HasToken(ctx) && ctx.uuid.Some? ==>
        header == (if ctx.canSetHeader then Some(token) else None) &&
        storage.tokens == (if ctx.canSetHeader && f.tokenSet.None? then old(storage.tokens)[token := username]
                           else old(storage.tokens))
      ensures !HasToken(ctx) && ctx.uuid.Some? && !TokenReady(ctx, f) ==>
        err == Some(Wrapped("storeToken", StoreTokenError(ctx, f)))
      ensures err.None? <==>
        TokenReady(ctx, f) && f.openIndex.None? && f.attrSet.None? && St.PasswordKey !in old(storage.Namespace(username))
      ensures TokenReady(ctx, f) && f.openIndex.Some? ==> err == Some(Store(St.HandleIndexError(f.openIndex.value)))
      ensures TokenReady(ctx, f) && f.openIndex.None? && f.attrSet.Some? ==>
        err == Some(Store(St.InsertError(f.attrSet.value)))
      ensures err.None? ==>
        storage.users == old(storage.users)[username := old(storage.Namespace(username))[St.PasswordKey := password]]
      ensures err.Some? ==> storage.users == old(storage.users)
      ensures TokenReady(ctx, f) && f.openIndex.None? && f.attrSet.None? && St.PasswordKey in old(storage.Namespace(username)) ==>
        err == Some(Store(St.AlreadyExists))
    {
      header := None;
      match GetOrCreateToken(ctx)
      case Err(e) =>
        return "", Some(Wrapped("getOrCreateToken", e)), header;
      case Ok(t) =>
        token := t.value;
        if !t.existed {
          var e;
          e, header := StoreToken(ctx, token, username, f);
          if e.Some? {
            return token, Some(Wrapped("storeToken", e.value)), header;
          }
        }
        var e := storage.AddUser(username, password, f);
        if e.Some? {
          return token, Some(Store(e.value)), header;
        }
        err := None;
    }

    /**
     * Auth: a minted token is bound to `username` before anything is
     * checked, so the binding survives a failed check. The token must
     * resolve to some user (which user is never compared with `username`),
     * and the stored password of `username` must equal `password`.
     */
    method Auth(ctx: Context, username: string, password: string, f: B.Faults)
      returns (token: string, err: Option<Error>, header: Option<string>)
      modifies storage
      ensures storage.users == old(storage.users)
      ensures !HasToken(ctx) && ctx.uuid.None? ==>
        err == Some(Wrapped("getOrCreateToken", TokenGeneration)) && header.None? &&
        storage.tokens == old(storage.tokens)
      ensures HasToken(ctx) ==> header.None? && storage.tokens == old(storage.tokens)
      ensures !HasToken(ctx) && ctx.uuid.Some? ==>
        header == (if ctx.canSetHeader then Some(ctx.uuid.value) else None) &&
        storage.tokens == (if ctx.canSetHeader && f.tokenSet.None? then old(storage.tokens)[ctx.uuid.value := username]
                           else old(storage.tokens))
      ensures !HasToken(ctx) && ctx.uuid.Some? && !TokenReady(ctx, f) ==>
        err == Some(Wrapped("storeToken", StoreTokenError(ctx, f)))
      ensures err.Some? ==> token == ""
      ensures err.Some? ==> Root(err.value) != InvalidToken
      ensures err.None? <==>
        TokenReady(ctx, f) && f.tokenGet.None? && SessionToken(ctx) in storage.tokens &&
        storage.GetPassword(username, f) == Ok(password)
      ensures err.None? ==> token == SessionToken(ctx)
      ensures TokenReady(ctx, f) && storage.GetUsername(SessionToken(ctx), f).Err? ==>
        err == Some(Wrapped("validateToken", Store(storage.GetUsername(SessionToken(ctx), f).error)))
      ensures TokenReady(ctx, f) && storage.GetUsername(SessionToken(ctx), f).Ok? && storage.GetPassword(username, f).Err? ==>
        err == Some(Wrapped("GetPassword", Store(storage.GetPassword(username, f).error)))
      ensures TokenReady(ctx, f) && storage.GetUsername(SessionToken(ctx), f).Ok? &&
              storage.GetPassword(username, f).Ok? && storage.GetPassword(username, f).value != password ==>
        err == Some(InvalidPassword)
    {
      header := None;
      match GetOrCreateToken(ctx)
      case Err(e) =>
        return "", Some(Wrapped("getOrCreateToken", e)), header;
      case Ok(t) =>
        token := t.value;
        if !t.existed {
          var e;
          e, header := StoreToken(ctx, token, username, f);
          if e.Some? {
            return "", Some(Wrapped("storeToken", e.value)), header;
          }
        }
        match ValidateToken(token, f)
        case Err(e) =>
          return "", Some(Wrapped("validateToken", Store(e))), header;
        case Ok(ok) =>
          if !ok {
            // validateToken never answers false without an error
            assert false;
          }
        match storage.GetPassword(username, f)
        case Err(e) =>
          return "", Some(Wrapped("GetPassword", Store(e))), header;
        case Ok(passwordFromDB) =>
          if passwordFromDB != password {
            return "", Some(InvalidPassword), header;
          }
          err := None;
    }

    /** Get reads `key` in the namespace of the user the incoming token is bound to. */
    function Get(ctx: Context, key: string, f: B.Faults): (r: Result<string, Error>)
      reads storage
      ensures r.Ok? <==>
        GetUsernameFromContext(ctx, f).Ok? && storage.Get(GetUsernameFromContext(ctx, f).value, key, f).Ok?
      ensures r.Ok? ==> r.value == storage.Namespace(storage.tokens[FirstToken(ctx)])[key]
      ensures GetUsernameFromContext(ctx, f).Err? ==>
        r == Err(Wrapped("getFromContext", GetUsernameFromContext(ctx, f).error))
      ensures GetUsernameFromContext(ctx, f).Ok? && r.Err? ==>
        r == Err(Wrapped("get", Store(storage.Get(GetUsernameFromContext(ctx, f).value, key, f).error)))
    {
      match GetUsernameFromContext(ctx, f)
      case Err(e) => Err(Wrapped("getFromContext", e))
      case Ok(username) =>
        match storage.Get(username, key, f)
        case Err(e) => Err(Wrapped("get", Store(e)))
        case Ok(v) => Ok(v)
    }

    /**
     * Set writes `key` in the namespace of the user the incoming token is
     * bound to; when no user resolves, nothing is written. Store errors are
     * returned unwrapped.
     */
    method Set(ctx: Context, key: string, value: string, f: B.Faults) returns (err: Option<Error>)
      modifies storage
      ensures storage.tokens == old(storage.tokens)
      ensures old(GetUsernameFromContext(ctx, f)).Err? ==>
        err == Some(Wrapped("getFromContext", old(GetUsernameFromContext(ctx, f)).error)) &&
        storage.users == old(storage.users)
      ensures old(GetUsernameFromContext(ctx, f)).Ok? ==>
        var username := storage.tokens[FirstToken(ctx)];
        && (err.None? <==> f.openIndex.None? && f.attrSet.None?)
        && (err.None? ==> storage.users == old(storage.users)[username := old(storage.Namespace(username))[key := value]])
        && (err.Some? ==> storage.users == old(storage.users))
        && (f.openIndex.Some? ==> err == Some(Store(St.HandleIndexError(f.openIndex.value))))
        && (f.openIndex.None? && f.attrSet.Some? ==> err == Some(Store(St.WriteError(f.attrSet.value))))
    {
      match GetUsernameFromContext(ctx, f)
      case Err(e) =>
        return Some(Wrapped("getFromContext", e));
      case Ok(username) =>
        var e := storage.Set(username, key, value, f);
        err := if e.Some? then Some(Store(e.value)) else None;
    }

    /**
     * Delete removes `key` from the namespace of the user the incoming token
     * is bound to; when no user resolves, nothing is removed.
     */
    method Delete(ctx: Context, key: string, f: B.Faults) returns (err: Option<Error>)
      modifies storage
      ensures storage.tokens == old(storage.tokens)
      ensures old(GetUsernameFromContext(ctx, f)).Err? ==>
        err == Some(Wrapped("getFromContext", old(GetUsernameFromContext(ctx, f)).error)) &&
        storage.users == old(storage.users)
      ensures old(GetUsernameFromContext(ctx, f)).Ok? ==>
        var username := storage.tokens[FirstToken(ctx)];
        && (err.None? <==> f.openIndex.None? && f.attrDelete.None? && key in old(storage.Namespace(username)))
        && (err.None? ==> storage.users == old(storage.users)[username := old(storage.Namespace(username)) - {key}])
        && (err.Some? ==> storage.users == old(storage.users))
        && (f.openIndex.None? && f.attrDelete.None? && key !in old(storage.Namespace(username)) ==>
              err == Some(Store(St.NotFound)))
        && (f.openIndex.Some? ==> err == Some(Store(St.HandleIndexError(f.openIndex.value))))
        && (f.openIndex.None? && f.attrDelete.Some? ==> err == Some(Store(St.DeleteError(f.attrDelete.value))))
    {
      match GetUsernameFromContext(ctx, f)
      case Err(e) =>
        return Some(Wrapped("getFromContext", e));
      case Ok(username) =>
        var e := storage.Delete(username, key, f);
        err := if e.Some? then Some(Store(e.value)) else None;
    }

    /** GetAllNames lists the secret names of the user the incoming token is bound to. */
    method GetAllNames(ctx: Context, f: B.Faults) returns (r: Result<seq<string>, Error>)
      ensures GetUsernameFromContext(ctx, f).Err? ==>
        r == Err(Wrapped("getFromContext", GetUsernameFromContext(ctx, f).error))
      ensures GetUsernameFromContext(ctx, f).Ok? ==>
        var username := storage.tokens[FirstToken(ctx)];
        && (r.Ok? <==> f.openIndex.None? && f.readIndex.None?)
        && (f.openIndex.Some? ==> r == Err(Store(St.Backend(f.openIndex.value))))
        && (f.openIndex.None? && f.readIndex.Some? ==> r == Err(Store(St.HandleIndexError(f.readIndex.value))))
        && (r.Ok? ==> St.Distinct(r.value))
        && (r.Ok? ==> forall n :: n in r.value <==>
              n in storage.Namespace(username) && n != St.PasswordKey && n != username)
    {
      match GetUsernameFromContext(ctx, f)
      case Err(e) =>
        return Err(Wrapped("getFromContext", e));
      case Ok(username) =>
        var names := storage.GetAllNames(username, f);
        r := match names
          case Ok(ns) => Ok(ns)
          case Err(e) => Err(Store(e));
    }
  }
}
