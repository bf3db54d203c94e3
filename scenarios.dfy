/**
 * Sequences of calls against one store, each proved from the contracts of
 * the use case alone: the register-and-use session, double registration,
 * the bindings Auth leaves behind, and a full round trip through the
 * handler and the client.
 */
module Scenarios {
  import opened Wrappers
  import B = Backend
  import Grpc
  import St = Storage
  import U = ServerUseCase
  import H = GrpcHandler
  import C = ClientUseCase
  import E = EndToEnd

  /** A call that carries `t` as its token (and whose generator would answer `uuid`). */
  function WithToken(t: string): U.Context
  {
    U.Context(Some(map[Grpc.TokenKey := [t]]), None, true)
  }

  /** A call without a token, for which the generator answers `t`. */
  function Minting(t: string): U.Context
  {
    U.Context(None, Some(t), true)
  }

  /** A list without repeats has as many elements as it has distinct members. */
  lemma {:induction false} DistinctCard(ns: seq<string>)
    requires St.Distinct(ns)
    ensures |set n | n in ns| == |ns|
  {
    if ns != [] {
      var tail := ns[1..];
      assert St.Distinct(tail) by {
        forall i, j | 0 <= i < j < |tail| ensures tail[i] != tail[j] {
          assert tail[i] == ns[i + 1] && tail[j] == ns[j + 1];
        }
      }
      DistinctCard(tail);
      assert ns[0] !in tail by {
        forall j | 0 <= j < |tail| ensures tail[j] != ns[0] {
          assert tail[j] == ns[j + 1];
        }
      }
      assert (set n | n in ns) == {ns[0]} + (set n | n in tail) by {
        assert ns == [ns[0]] + tail;
      }
    }
  }

  /** A list without repeats whose only member is `key` is [key]. */
  lemma OnlyKey(ns: seq<string>, key: string)
    requires St.Distinct(ns) && key in ns
    requires forall n :: n in ns ==> n == key
    ensures ns == [key]
  {
    DistinctCard(ns);
    assert (set n | n in ns) == {key};
    assert ns[0] in ns;
  }

  /**
   * Register a new user under a minted token, then with that token Set,
   * Get, list, Delete and Get again: read-your-write, the listing holds the
   * one secret, and after the delete the secret is not found.
   */
  method RegisterAndUse(s: St.Storage, username: string, password: string, t: string, key: string, value: string)
    returns (token: string, got: Result<string, U.Error>, names: Result<seq<string>, U.Error>,
             afterDelete: Result<string, U.Error>)
    requires s.Namespace(username) == map[]
    requires key != St.PasswordKey && key != username
    modifies s
    ensures token == t
    ensures got == Ok(value)
    ensures names == Ok([key])
    ensures afterDelete.Err? && U.Root(afterDelete.error) == U.Store(St.NotFound)
    ensures s.tokens == old(s.tokens)[t := username]
    ensures s.Namespace(username) == map[St.PasswordKey := password]
  {
    var uc := new U.UseCase(s);
    var err, header;
    token, err, header := uc.Register(Minting(t), username, password, B.NoFaults);
    assert err.None?;
    var ctx := WithToken(t);
    assert U.HasToken(ctx) && U.FirstToken(ctx) == t;
    var e := uc.Set(ctx, key, value, B.NoFaults);
    assert e.None?;
    got := uc.Get(ctx, key, B.NoFaults);
    assert s.Namespace(username) == map[St.PasswordKey := password][key := value];
    names := uc.GetAllNames(ctx, B.NoFaults);
    var ns := names.value;
    assert key in ns;
    assert forall n :: n in ns ==> n == key;
    OnlyKey(ns, key);
    e := uc.Delete(ctx, key, B.NoFaults);
    assert e.None?;
    afterDelete := uc.Get(ctx, key, B.NoFaults);
    assert s.Namespace(username) == map[St.PasswordKey := password][key := value] - {key};
    assert s.Namespace(username) == map[St.PasswordKey := password];
  }

  /**
   * Registering a taken name fails with AlreadyExists, yet the second
   * minted token is returned and stays bound to the name; the first
   * password still authenticates and the second does not.
   */
  method RegisterTwice(s: St.Storage, username: string, p1: string, p2: string, t1: string, t2: string)
    returns (err2: Option<U.Error>, token2: string, auth1: Option<U.Error>, auth2: Option<U.Error>)
    requires St.PasswordKey !in s.Namespace(username)
    requires p1 != p2
    modifies s
    ensures err2 == Some(U.Store(St.AlreadyExists)) && token2 == t2
    ensures t2 in s.tokens && s.tokens[t2] == username
    ensures s.GetPassword(username, B.NoFaults) == Ok(p1)
    ensures auth1.None?
    ensures auth2 == Some(U.InvalidPassword)
  {
    var uc := new U.UseCase(s);
    var token1, err1, h1 := uc.Register(Minting(t1), username, p1, B.NoFaults);
    assert err1.None?;
    var h2;
    token2, err2, h2 := uc.Register(Minting(t2), username, p2, B.NoFaults);
    var tk, h;
    tk, auth1, h := uc.Auth(WithToken(t1), username, p1, B.NoFaults);
    tk, auth2, h := uc.Auth(WithToken(t1), username, p2, B.NoFaults);
  }

  /**
   * Auth with a wrong password and a minted token fails, but the token was
   * already put in the response header and bound to the name, and a call
   * carrying it reads that user's secrets.
   */
  method FailedAuthLeavesSession(s: St.Storage, username: string, password: string, wrong: string, t: string, key: string)
    returns (err: Option<U.Error>, header: Option<string>, got: Result<string, U.Error>)
    requires s.GetPassword(username, B.NoFaults) == Ok(password)
    requires wrong != password
    modifies s
    ensures err == Some(U.InvalidPassword)
    ensures header == Some(t)
    ensures s.tokens == old(s.tokens)[t := username]
    ensures got.Ok? <==> key in s.Namespace(username)
    ensures got.Ok? ==> got.value == s.Namespace(username)[key]
  {
    var uc := new U.UseCase(s);
    var token;
    token, err, header := uc.Auth(Minting(t), username, wrong, B.NoFaults);
    got := uc.Get(WithToken(t), key, B.NoFaults);
  }

  /**
   * Auth accepts a token bound to another user: with `t` bound to `owner`,
   * authenticating as `other` succeeds and returns `t`, and `t` still acts
   * as `owner`.
   */
  method AuthIgnoresTokenOwner(s: St.Storage, t: string, owner: string, other: string, password: string)
    returns (token: string, err: Option<U.Error>)
    requires t in s.tokens && s.tokens[t] == owner
    requires s.GetPassword(other, B.NoFaults) == Ok(password)
    modifies s
    ensures token == t && err.None?
    ensures s.tokens == old(s.tokens) && s.users == old(s.users)
  {
    var uc := new U.UseCase(s);
    var header;
    token, err, header := uc.Auth(WithToken(t), other, password, B.NoFaults);
  }

  /**
   * The reserved key is an ordinary key for Set: writing "password" through
   * a session replaces the login password, and the listing still hides it.
   */
  method SetOverwritesPassword(s: St.Storage, t: string, username: string, newPassword: string)
    returns (setErr: Option<U.Error>, authErr: Option<U.Error>, names: Result<seq<string>, U.Error>)
    requires t in s.tokens && s.tokens[t] == username
    modifies s
    ensures setErr.None? && authErr.None?
    ensures names.Ok? && St.PasswordKey !in names.value
  {
    var uc := new U.UseCase(s);
    setErr := uc.Set(WithToken(t), St.PasswordKey, newPassword, B.NoFaults);
    var token, header;
    token, authErr, header := uc.Auth(WithToken(t), username, newPassword, B.NoFaults);
    names := uc.GetAllNames(WithToken(t), B.NoFaults);
  }

  /**
   * A minted token whose write the backend refuses with a unique-constraint
   * error fails Register under "storeToken" before the user is created, and
   * the client reports ErrUsernameExists as if the name were taken. AddToken
   * writes without asking for uniqueness, so that refusal (the AlreadyExists
   * branch of AddToken) arises only as an injected fault; a token that is
   * already bound is rebound silently.
   */
  method RefusedTokenWriteReadsAsTakenName(s: St.Storage, client: C.UseCase, username: string, password: string,
                                        t: string, f: B.Faults)
    returns (err: Option<U.Error>, registered: Option<C.Error>)
    requires f.tokenSet == Some(B.UniqueConstraint)
    modifies s, client
    ensures err == Some(U.Wrapped("storeToken", U.Store(St.AlreadyExists)))
    ensures s.users == old(s.users) && s.tokens == old(s.tokens)
    ensures registered == Some(C.UsernameExists)
  {
    var uc := new U.UseCase(s);
    var token, header;
    token, err, header := uc.Register(Minting(t), username, password, f);
    var ctx;
    ctx, registered := client.Register(C.Context(None), H.Transmit(H.Register(token, err)), E.ResponseHeader(header));
  }

  /**
   * Auth with an incoming token that is bound to nobody fails at token
   * validation with the store's NotFound, never with InvalidToken, and the
   * client reports it as ErrInvalidPassword.
   */
  method UnboundTokenInAuthReadsAsBadPassword(s: St.Storage, client: C.UseCase, t: string,
                                              username: string, password: string)
    returns (err: Option<U.Error>, reported: Option<C.Error>)
    requires t !in s.tokens
    modifies s, client
    ensures err == Some(U.Wrapped("validateToken", U.Store(St.NotFound)))
    ensures reported == Some(C.InvalidPassword)
    ensures s.users == old(s.users) && s.tokens == old(s.tokens)
  {
    var uc := new U.UseCase(s);
    var token, header;
    token, err, header := uc.Auth(WithToken(t), username, password, B.NoFaults);
    var ctx;
    ctx, reported := client.Auth(C.Context(None), H.Transmit(H.Auth(token, err)), E.ResponseHeader(header));
  }

  /**
   * Delete with an incoming token that is bound to nobody fails to resolve
   * the user, which the handler sends as NotFound; the client reports it as
   * the "key not found" message for the key, as if the secret were missing.
   */
  method UnboundTokenInDeleteReadsAsMissingKey(s: St.Storage, client: C.UseCase, t: string, key: string)
    returns (err: Option<U.Error>, reported: Option<C.Error>)
    requires t !in s.tokens
    modifies s, client
    ensures err == Some(U.Wrapped("getFromContext", U.Wrapped("getUsername", U.Store(St.NotFound))))
    ensures reported == Some(C.KeyNotFound(key))
    ensures s.users == old(s.users) && s.tokens == old(s.tokens)
  {
    var uc := new U.UseCase(s);
    err := uc.Delete(WithToken(t), key, B.NoFaults);
    reported := client.DeleteSecret(key, H.Transmit(H.Delete(err)), map[]);
  }

  /**
   * A whole session across the wire: the client registers, keeps the token
   * from the response header, and its next calls store and read a secret
   * as that user.
   */
  method SessionRoundTrip(s: St.Storage, client: C.UseCase, username: string, password: string, t: string,
                          key: string, value: string)
    returns (registered: Option<C.Error>, stored: Option<C.Error>, read: Result<string, C.Error>)
    requires St.PasswordKey !in s.Namespace(username)
    modifies s, client
    ensures registered.None? && stored.None?
    ensures read == Ok(value)
  {
    var uc := new U.UseCase(s);
    var token, err, header := uc.Register(Minting(t), username, password, B.NoFaults);
    var ctx;
    ctx, registered := client.Register(C.Context(None), H.Transmit(H.Register(token, err)), E.ResponseHeader(header));
    E.TokenReachesNextCall(client, t, C.Context(None), None, true);
    var next := U.Context(ctx.outgoing, None, true);
    var e := uc.Set(next, key, value, B.NoFaults);
    stored := client.SetSecret(key, value, H.Transmit(H.Set(e)), map[]);
    read := client.GetSecret(key, H.Transmit(H.Get(uc.Get(next, key, B.NoFaults))), map[]);
  }
}
