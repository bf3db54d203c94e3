# secret-keeper, modelled in Dafny

secret-keeper is a client/server password manager. Its server keeps, for
each user, a private namespace of named secrets in a key-value index service
(itisadb). A user registers or authenticates once. The server then hands out
a session token in the response metadata, and every later call carries that
token in its request metadata. The server resolves the token to the acting
user and reads, writes, lists or deletes that user's secrets.

This project models the core of that system and proves properties of it:

- `backend.dfy` (`Backend`): the index service. An index is a map from
  attribute names to values. Each backend call either answers from the map
  or fails with a fault. A fault is caused by the state (an absent key, a
  unique insert over an existing key) or injected through a `Faults` record,
  which has one slot per kind of backend call.
- `storage.dfy` (`Storage`): the secret store, a class over two maps.
  `users` maps a username to its namespace, and the reserved key "password"
  in a namespace holds the login password. `tokens` maps a token to its
  username. Every backend error is classified into the store's errors
  exactly as the code does.
- `server_usecase.dfy` (`ServerUseCase`): token resolution and minting,
  Register, Auth, and the token-scoped Get, Set, Delete and GetAllNames.
  Go's `fmt.Errorf("...: %w", err)` becomes the `Wrapped` constructor, and
  `errors.Is` becomes the `Is` predicate.
- `grpc.dfy` (`Grpc`): status codes, metadata, the service's response
  messages, and what a client observes of a call.
- `handler.dfy` (`GrpcHandler`): the mapping from use-case outcomes to
  replies and status codes. `Transmit` states what the gRPC runtime delivers
  to the client. A status error keeps its code. A chain that ends in the
  failure of `grpc.SetHeader`, a status with code Internal, is sent as
  Internal. Any other error becomes code Unknown.
- `client_usecase.dfy` (`ClientUseCase`): the client's mapping from call
  statuses to client errors, and how the token moves from the response
  header into the outgoing metadata.
- `utils.dfy` (`Utils`): `IsTheSameArray`.
- `end_to_end.dfy` (`EndToEnd`) and `scenarios.dfy` (`Scenarios`): what a
  server error becomes at the client, and multi-call sessions proved from
  the operations' contracts.

A request's environment is an input of the model. For the server this is a
`Context`: the incoming metadata, what the UUID generator answers (None when
it fails), and whether `grpc.SetHeader` succeeds. For the store this is a
`Faults` record. The header the server sets is returned as an
out-parameter.

### Behaviour of the code the model keeps

The model follows the code in each of these cases, although some may not be
what the authors intended:

- `AddToken` writes with `unique=false`. A second binding of the same token
  replaces the first instead of failing with AlreadyExists.
- For a user that does not exist, the use case's `Auth` fails with the
  store's NotFound (wrapped as "GetPassword"), not with InvalidPassword. Only
  the handler makes the two look alike, by sending both as NotFound.
- InvalidToken arises only in Get, Set, Delete and GetAllNames, for a call
  that carries no token; the handler sends it as Unknown. Auth never fails
  with it: its `!ok` branch after validateToken is dead, and an unbound
  token fails validation with the store's NotFound, which the client
  reports as ErrInvalidPassword.
- `Handler.Get`'s NotFound branch is empty, so every error of the server's
  `Get` reaches the client as Unknown.
- The handler's `Set` and `GetAllNames` never map errors either. None of
  their errors is a status error or the SetHeader failure, so they too
  reach the client as Unknown.
- The client's `ErrSecretNotFound` and `ErrUnavailable` therefore never come
  from these server errors, although the client's test expects ErrSecretNotFound from
  GetSecret after DeleteSecret
  (internal/client/usecase/usecase_test.go:222-224).
- A Delete whose token is bound to nobody is sent as NotFound, like a
  missing key, so the client reports "key not found: <key>".
- The Auth and Register responses are empty. The token is sent only in the
  response header.
- `Auth` binds a minted token to the username before it checks anything,
  and never compares the token's owner with the username.
- `Storage.Delete` hands an unrecognised backend error on as it is.
  `Storage.GetAllNames` does the same for a failure to open the index.
- A `Set` of the key "password" replaces the login password.
- The client's `Register` wraps an unmapped status with the message
  "failed to auth".

## Model

| member | source | states |
|---|---|---|
| Storage.ReadError | internal/server/storage/storage.go:65-75 | a failed read keeps NotFound and Unavailable, both directions; anything else is Unknown |
| Storage.HandleIndexError | internal/server/storage/storage.go:79-89 | only Unavailable keeps its kind; a missing index and every other error become Unknown |
| Storage.WriteError | internal/server/storage/storage.go:98-106 | a failed overwrite is Unavailable exactly when the backend was unavailable, else Unknown |
| Storage.InsertError | internal/server/storage/storage.go:150-162 | a unique-constraint violation is AlreadyExists and unavailability is Unavailable, both directions; the rest is Unknown |
| Storage.DeleteError | internal/server/storage/storage.go:218-229 | NotFound and Unavailable keep their kind; every other backend error is returned unconverted |
| Storage.Storage.constructor | internal/server/storage/storage.go:24-44 | the store starts from the contents the backend's "users" and "tokens" indexes already hold |
| Storage.Storage.Get | internal/server/storage/storage.go:59-77 | succeeds exactly when no fault is injected and the key is in the user's namespace, with the stored value; otherwise the classified index or read error, NotFound for an absent key |
| Storage.Storage.Set | internal/server/storage/storage.go:92-108 | without a fault only that user's entry becomes `value` and a later Get returns it; on error nothing changes; every other (user, key) reads as before |
| Storage.Storage.AddToken | internal/server/storage/storage.go:110-124 | binds the token, replacing any earlier binding, so GetUsername then returns the user; on a fault the table is unchanged and the error is classified |
| Storage.Storage.GetUsername | internal/server/storage/storage.go:126-141 | succeeds exactly when the token is bound and no fault is injected, with the bound user; an unbound token is NotFound |
| Storage.Storage.AddUser | internal/server/storage/storage.go:143-164 | creates the password entry only when none exists; a second registration is AlreadyExists and keeps the first password |
| Storage.Storage.GetPassword | internal/server/storage/storage.go:166-186 | is Get of the reserved key; NotFound when the user has no password |
| Storage.Storage.GetAllNames | internal/server/storage/storage.go:188-209 | lists each name of the namespace other than "password" and the username exactly once; an open failure is returned unconverted, a read failure via HandleIndexError |
| Storage.Storage.Delete | internal/server/storage/storage.go:211-232 | removes exactly that entry, after which Get is NotFound; an absent key is NotFound and nothing changes |
| ServerUseCase.Root | internal/server/usecase/usecase.go:78-80 | the end of a chain of wrappings is not itself a wrapping |
| ServerUseCase.IsRoot | internal/server/handler/grpc/handler.go:25-27 | errors.Is against a sentinel holds exactly when the chain ends in that sentinel |
| ServerUseCase.GetOrCreateToken | internal/server/usecase/usecase.go:171-185 | the incoming token is used as it is (existed) exactly when the call carries one; otherwise the generator's token, or its failure |
| ServerUseCase.UseCase.constructor | internal/server/usecase/usecase.go:35-39 | the use case works on the given store |
| ServerUseCase.UseCase.GetUsernameFromContext | internal/server/usecase/usecase.go:187-203 | succeeds exactly when the call carries a bound token, with its user; without a token it is InvalidToken and never mints |
| ServerUseCase.UseCase.ValidateToken | internal/server/usecase/usecase.go:141-147 | never answers false without an error; valid exactly when the token is bound |
| ServerUseCase.UseCase.StoreToken | internal/server/usecase/usecase.go:150-160 | sets the header first, then binds the token; a header failure writes nothing |
| ServerUseCase.UseCase.Register | internal/server/usecase/usecase.go:76-95 | a minted token is bound before the user is created and stays bound when creation fails; success exactly when the token is ready, no fault occurs and the name is free; a taken name is AlreadyExists, other AddUser faults their classified error; a minted token that cannot be announced or stored fails under "storeToken" with the refused header or the classified token-write error |
| ServerUseCase.UseCase.Auth | internal/server/usecase/usecase.go:98-128 | succeeds exactly when the token is ready and bound to any user and the stored password equals the given one; each failure carries its step's wrapping and inner error; the users map never changes; no error of Auth ends in InvalidToken |
| ServerUseCase.UseCase.Get | internal/server/usecase/usecase.go:52-63 | reads the key in the namespace of the token's user; errors wrapped "getFromContext" or "get" |
| ServerUseCase.UseCase.Set | internal/server/usecase/usecase.go:66-73 | writes only the token's user's entry; an unresolved token writes nothing |
| ServerUseCase.UseCase.Delete | internal/server/usecase/usecase.go:131-138 | removes only the token's user's entry; an absent key is the store's NotFound |
| ServerUseCase.UseCase.GetAllNames | internal/server/usecase/usecase.go:42-49 | the token's user's names, each once, without "password" and the username |
| GrpcHandler.Transmit | internal/server/handler/grpc/handler.go:22-80 | a response arrives as the answer; a status keeps its code; a passed-on chain ending in the SetHeader failure arrives as Internal (usecase.go:155-157), any other passed-on error as Unknown |
| GrpcHandler.Auth | internal/server/handler/grpc/handler.go:22-31 | an error ending in NotFound or InvalidPassword becomes status NotFound; every other error, InvalidToken included, passes through |
| GrpcHandler.Register | internal/server/handler/grpc/handler.go:33-42 | an error ending in AlreadyExists becomes status AlreadyExists; others pass through; the token is dropped |
| GrpcHandler.Get | internal/server/handler/grpc/handler.go:44-53 | the value on success; every error, NotFound included, passes through unchanged |
| GrpcHandler.Set | internal/server/handler/grpc/handler.go:55-61 | an empty response exactly on success, else the error unchanged |
| GrpcHandler.GetAllNames | internal/server/handler/grpc/handler.go:63-69 | the names as `vars`, or the error unchanged |
| GrpcHandler.Delete | internal/server/handler/grpc/handler.go:71-80 | an error ending in NotFound becomes status NotFound; others pass through |
| ClientUseCase.GetSecretError | internal/client/usecase/usecase.go:36-52 | Unavailable and NotFound become exactly the client's bare ErrUnavailable and ErrSecretNotFound, both directions; other statuses are returned as they are; a non-status error is wrapped "failed to get" |
| ClientUseCase.SetSecretError | internal/client/usecase/usecase.go:54-68 | always wrapped "failed to set"; the wrapped error is ErrUnavailable exactly for that status, otherwise the call's error |
| ClientUseCase.DeleteSecretError | internal/client/usecase/usecase.go:70-85 | NotFound becomes the "key not found" message, which is never ErrSecretNotFound; Unavailable becomes exactly "failed to delete" over ErrUnavailable; the rest is wrapped "failed to delete" |
| ClientUseCase.GetAllNamesError | internal/client/usecase/usecase.go:87-94 | every failure is wrapped "failed to get all" and is never ErrUnavailable |
| ClientUseCase.AuthError | internal/client/usecase/usecase.go:96-116 | Unavailable and NotFound (as ErrInvalidPassword) exactly for those statuses; others wrapped "failed to auth" |
| ClientUseCase.RegisterError | internal/client/usecase/usecase.go:132-150 | Unavailable and AlreadyExists (as ErrUsernameExists) exactly for those statuses; other statuses wrapped "failed to auth" |
| ClientUseCase.UseCase.constructor | internal/client/usecase/usecase.go:26-34 | the client records the header it is given |
| ClientUseCase.UseCase.AddTokenToContext | internal/client/usecase/usecase.go:118-130 | fails, keeping the context, exactly when the header has no token; otherwise the outgoing metadata holds only the first token |
| ClientUseCase.UseCase.GetSecret | internal/client/usecase/usecase.go:36-52 | records the call's header; the value, or GetSecretError of the failure |
| ClientUseCase.UseCase.SetSecret | internal/client/usecase/usecase.go:54-68 | records the call's header; no error exactly when the call succeeded |
| ClientUseCase.UseCase.DeleteSecret | internal/client/usecase/usecase.go:70-85 | records the call's header; no error exactly when the call succeeded |
| ClientUseCase.UseCase.GetAllNames | internal/client/usecase/usecase.go:87-94 | records the call's header; the `vars`, or the wrapped failure |
| ClientUseCase.UseCase.Auth | internal/client/usecase/usecase.go:96-116 | a failure keeps the context and maps the status; success moves the received token into the context |
| ClientUseCase.UseCase.Register | internal/client/usecase/usecase.go:132-150 | as Auth, with Register's mapping |
| Utils.IsTheSameArray | pkg/utils.go:3-18 | true exactly when the lengths agree and every element of `b` occurs in `a` |
| Utils.PermutationIsSame | pkg/utils.go:3-18 | any reordering of a list is the same as it |
| Utils.DuplicatesAreOnlyCheckedForMembership | pkg/utils.go:9-15 | multiplicity is ignored and the relation is not symmetric: ["x","y"] is the same as ["x","x"] but not the reverse |
| EndToEnd.ResponseHeader | internal/server/usecase/usecase.go:151-154 | the metadata a client receives carries exactly the token the server set |
| EndToEnd.HandlerCodes | internal/server/handler/grpc/handler.go:22-80 | a client only ever sees NotFound, Internal or Unknown from Auth and Delete, AlreadyExists, Internal or Unknown from Register, and Internal or Unknown from Get, Set and GetAllNames; Auth and Register give Internal exactly for a refused header |
| EndToEnd.DuplicateUsernameReachesClient | internal/server/handler/grpc/handler.go:36-39 | a taken name arrives as AlreadyExists and becomes ErrUsernameExists |
| EndToEnd.BadCredentialsReachClientAlike | internal/server/handler/grpc/handler.go:25-27 | an unknown user and a wrong password both become ErrInvalidPassword at the client |
| EndToEnd.UnmappedInvalidTokenWouldReachClientAsUnknown | internal/server/handler/grpc/handler.go:25-28 | an error ending in InvalidToken, which Auth never produces, would reach the client as "failed to auth" over Unknown |
| EndToEnd.SetHeaderFailureReachesClient | internal/server/usecase/usecase.go:104-108 | a refused header in Auth or Register reaches the client as "failed to auth" over an Internal status |
| EndToEnd.ResolutionNeverEndsInSetHeader | internal/server/usecase/usecase.go:187-203 | resolving a call's token never fails with the header's error |
| EndToEnd.ServerGetErrorsReachClientAsUnknown | internal/server/handler/grpc/handler.go:44-53 | every error of the server's Get, a missing secret and an outage included, reaches GetSecret as a plain Unknown status |
| EndToEnd.GetErrorsNeverReachClientAsNotFound | internal/server/handler/grpc/handler.go:46-50 | whatever error reaches the handler's Get, the client never reports ErrSecretNotFound or ErrUnavailable |
| EndToEnd.MissingKeyOnDeleteReachesClient | internal/server/handler/grpc/handler.go:73-77 | deleting an absent key becomes the client's "key not found" message |
| EndToEnd.BackendOutageOnSetIsNotUnavailable | internal/server/handler/grpc/handler.go:55-61 | an unavailable backend on Set never becomes the client's ErrUnavailable |
| EndToEnd.TokenReachesNextCall | internal/client/usecase/usecase.go:118-130 | the token the client stored is the token the server reads from the next call |
| Scenarios.RegisterAndUse | internal/server/usecase/usecase.go:76-95 | after Register, with the token: Set then Get reads the value back, the listing is exactly that key, and after Delete the key is NotFound |
| Scenarios.RegisterTwice | internal/server/usecase/usecase.go:76-95 | a second Register of a name is AlreadyExists, its token stays bound, and only the first password authenticates |
| Scenarios.FailedAuthLeavesSession | internal/server/usecase/usecase.go:98-128 | a failed Auth still sends and binds the minted token, which then reads that user's secrets |
| Scenarios.AuthIgnoresTokenOwner | internal/server/usecase/usecase.go:112-127 | Auth succeeds with a token bound to another user and changes nothing |
| Scenarios.SetOverwritesPassword | internal/server/usecase/usecase.go:66-73 | Set of "password" replaces the login password; the listing still hides it |
| Scenarios.RefusedTokenWriteReadsAsTakenName | internal/server/usecase/usecase.go:82-86 | an injected unique-constraint refusal of the minted token's write fails Register under "storeToken" without creating the user, and the client reports ErrUsernameExists |
| Scenarios.UnboundTokenInAuthReadsAsBadPassword | internal/server/usecase/usecase.go:111-112 | Auth with a token bound to nobody fails as validateToken over the store's NotFound and the client reports ErrInvalidPassword |
| Scenarios.UnboundTokenInDeleteReadsAsMissingKey | internal/server/handler/grpc/handler.go:71-80 | Delete with a token bound to nobody reaches the client as the "key not found" message for the key |
| Scenarios.SessionRoundTrip | internal/client/usecase/usecase.go:132-150 | a client that registers through the handler and its own header then stores and reads a secret as that user |

## Left out

- Network, connections and process start-up: `storage.New` opening the two
  indexes, the client's `New` and `connect`, the configuration, the
  command-line interface and the two `main` programs. The store starts from
  the two maps the indexes hold when it is created.
- Logging and printing: the store's `Warn` calls and storeToken's
  `fmt.Println` of every minted token with its username (usecase.go:151)
  are treated as having no effect.
  `storage.New` never sets the logger, so in the code a `Warn` would
  dereference a nil logger. The model does not capture that fault.
- Randomness: `generateToken` is replaced by the `uuid` field of the
  context, which is the generator's answer or None for its failure.
- Cancellation and deadlines of the context, and concurrency between calls.
  Each operation is one atomic step on the store.
- The request messages and the generated service stubs. The client methods
  take the call's outcome and the header it delivered instead of sending a
  request, so usernames, passwords and keys sent by the client do not appear
  in the client model.
- gRPC header delivery is not modelled as a mechanism. `grpc.SetHeader` is
  a success flag of the context, and the header a client receives is passed
  in explicitly. Metadata keys are assumed to be lower-case already.
- The error messages' text is kept only as the wrapping context strings.
  Errors are compared by kind.
- ServerUseCase.UseCase.Auth: the `!ok` branch after validateToken, which
  would fail with InvalidToken, is not among the outcomes the contract
  lists, because validateToken never answers false without an error and the
  model proves that branch dead.
- GrpcHandler.Transmit: a backend error that the store hands on
  unconverted (storage.go:192, 228) is treated as a non-status error, sent
  as Unknown. If the index service's client returns gRPC status errors,
  their own code would reach the client instead.
- GrpcHandler.Transmit: it assumes a grpc-go whose status.FromError looks
  through %w wrapping; an older one would send the SetHeader failure as
  Unknown. A SetHeader on a finished stream can fail with a cancellation
  code rather than Internal, which the model does not distinguish.
- Storage.Storage.Namespace: opening the index of a name never written
  (users.Index) is assumed to give an empty index. The index service's
  client is not part of this model; if it answered IndexNotFound instead,
  handleIndexError would make Auth for an unknown user fail with Unknown,
  shown at the client as "failed to auth".
