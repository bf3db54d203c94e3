/**
 * What a client ends up with for the errors the server's use case produces:
 * the use-case error goes through the handler, across the wire
 * (GrpcHandler.Transmit) and through the client's mapping.
 */
module EndToEnd {
  import opened Wrappers
  import B = Backend
  import Grpc
  import St = Storage
  import U = ServerUseCase
  import H = GrpcHandler
  import C = ClientUseCase

  /** The metadata a client receives for the header storeToken set (metadata.Pairs("token", t)). */
  function ResponseHeader(header: Option<string>): (md: Grpc.MD)
    ensures header.None? ==> Grpc.Values(md, Grpc.TokenKey) == []
    ensures header.Some? ==> Grpc.Values(md, Grpc.TokenKey) == [header.value]
  {
    if header.Some? then map[Grpc.TokenKey := [header.value]] else map[]
  }

  /**
   * The handler only ever builds NotFound and AlreadyExists statuses; a
   * failed grpc.SetHeader arrives as Internal, and anything else as Unknown.
   */
  lemma HandlerCodes(token: string, err: Option<U.Error>, get: Result<string, U.Error>,
                     names: Result<seq<string>, U.Error>)
    ensures H.Transmit(H.Auth(token, err)).Failed? ==>
      H.Transmit(H.Auth(token, err)).err.code in {Grpc.NotFound, Grpc.Internal, Grpc.Unknown}
    ensures H.Transmit(H.Register(token, err)).Failed? ==>
      H.Transmit(H.Register(token, err)).err.code in {Grpc.AlreadyExists, Grpc.Internal, Grpc.Unknown}
    ensures H.Transmit(H.Delete(err)).Failed? ==>
      H.Transmit(H.Delete(err)).err.code in {Grpc.NotFound, Grpc.Internal, Grpc.Unknown}
    ensures H.Transmit(H.Set(err)).Failed? ==> H.Transmit(H.Set(err)).err.code in {Grpc.Internal, Grpc.Unknown}
    ensures H.Transmit(H.Get(get)).Failed? ==> H.Transmit(H.Get(get)).err.code in {Grpc.Internal, Grpc.Unknown}
    ensures H.Transmit(H.GetAllNames(names)).Failed? ==>
      H.Transmit(H.GetAllNames(names)).err.code in {Grpc.Internal, Grpc.Unknown}
    ensures H.Transmit(H.Auth(token, err)) == Grpc.Failed(Grpc.StatusError(Grpc.Internal)) <==>
      err.Some? && U.Root(err.value) == U.SetHeaderFailed
    ensures H.Transmit(H.Register(token, err)) == Grpc.Failed(Grpc.StatusError(Grpc.Internal)) <==>
      err.Some? && U.Root(err.value) == U.SetHeaderFailed
  {
  }

  /** A refused response header in Auth or Register reaches the client as a wrapped Internal status. */
  lemma SetHeaderFailureReachesClient(token: string, e: U.Error)
    requires U.Root(e) == U.SetHeaderFailed
    ensures C.AuthError(H.Transmit(H.Auth(token, Some(e))).err) ==
      C.Wrapped("failed to auth", C.Rpc(Grpc.StatusError(Grpc.Internal)))
    ensures C.RegisterError(H.Transmit(H.Register(token, Some(e))).err) ==
      C.Wrapped("failed to auth", C.Rpc(Grpc.StatusError(Grpc.Internal)))
  {
  }

  /**
   * Resolving the token of a call never fails with the header's error:
   * only Register and Auth set a header.
   */
  lemma ResolutionNeverEndsInSetHeader(uc: U.UseCase, ctx: U.Context, f: B.Faults)
    ensures uc.GetUsernameFromContext(ctx, f).Err? ==>
      U.Root(uc.GetUsernameFromContext(ctx, f).error) != U.SetHeaderFailed
  {
  }

  /** A taken username reaches the client as ErrUsernameExists. */
  lemma DuplicateUsernameReachesClient(token: string, e: U.Error)
    requires U.Root(e) == U.Store(St.AlreadyExists)
    ensures H.Transmit(H.Register(token, Some(e))) == Grpc.Failed(Grpc.StatusError(Grpc.AlreadyExists))
    ensures C.RegisterError(H.Transmit(H.Register(token, Some(e))).err) == C.UsernameExists
  {
  }

  /**
   * A wrong password and an unknown user (or an unknown incoming token)
   * reach the client alike, as ErrInvalidPassword.
   */
  lemma BadCredentialsReachClientAlike(token: string, e: U.Error)
    requires U.Root(e) == U.Store(St.NotFound) || U.Root(e) == U.InvalidPassword
    ensures C.AuthError(H.Transmit(H.Auth(token, Some(e))).err) == C.InvalidPassword
  {
  }

  /**
   * The handler's Auth leaves InvalidToken unmapped: an error ending in it
   * would reach the client as a wrapped Unknown status. UseCase.Auth never
   * fails that way; an unbound token fails as the store's NotFound.
   */
  lemma UnmappedInvalidTokenWouldReachClientAsUnknown(token: string, e: U.Error)
    requires U.Root(e) == U.InvalidToken
    ensures C.AuthError(H.Transmit(H.Auth(token, Some(e))).err) ==
      C.Wrapped("failed to auth", C.Rpc(Grpc.StatusError(Grpc.Unknown)))
  {
  }

  /**
   * Every error of the server's Get, a missing secret and an unavailable
   * backend included, reaches GetSecret as a plain Unknown status: the
   * client's ErrSecretNotFound and ErrUnavailable never come from the server.
   */
  lemma ServerGetErrorsReachClientAsUnknown(uc: U.UseCase, ctx: U.Context, key: string, f: B.Faults)
    requires uc.Get(ctx, key, f).Err?
    ensures C.GetSecretError(H.Transmit(H.Get(uc.Get(ctx, key, f))).err) == C.Rpc(Grpc.StatusError(Grpc.Unknown))
  {
    ResolutionNeverEndsInSetHeader(uc, ctx, f);
  }

  /** Whatever error reaches the handler's Get, the client never reports ErrSecretNotFound or ErrUnavailable. */
  lemma GetErrorsNeverReachClientAsNotFound(e: U.Error)
    ensures !C.Is(C.GetSecretError(H.Transmit(H.Get(Err(e))).err), C.SecretNotFound)
    ensures !C.Is(C.GetSecretError(H.Transmit(H.Get(Err(e))).err), C.Unavailable)
  {
  }

  /** Deleting a missing key reaches the client as the "key not found" message. */
  lemma MissingKeyOnDeleteReachesClient(key: string, e: U.Error)
    requires U.Root(e) == U.Store(St.NotFound)
    ensures C.DeleteSecretError(key, H.Transmit(H.Delete(Some(e))).err) == C.KeyNotFound(key)
  {
  }

  /** An unavailable backend on Set reaches the client wrapped, but not as ErrUnavailable. */
  lemma BackendOutageOnSetIsNotUnavailable(e: U.Error)
    ensures !C.Is(C.SetSecretError(H.Transmit(H.Set(Some(e))).err), C.Unavailable)
  {
  }

  /**
   * The token a client stored after Auth or Register is the token the
   * server reads from the next call: the outgoing metadata becomes that
   * call's incoming metadata.
   */
  lemma TokenReachesNextCall(client: C.UseCase, t: string, ctx: C.Context, uuid: Option<string>, canSetHeader: bool)
    requires client.header == ResponseHeader(Some(t))
    ensures client.AddTokenToContext(ctx).1.None?
    ensures var next := U.Context(client.AddTokenToContext(ctx).0.outgoing, uuid, canSetHeader);
      U.HasToken(next) && U.FirstToken(next) == t
  {
  }
}
