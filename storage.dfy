/**
 * The secret store (package storage): a per-user namespace of secrets and a
 * token table, kept in two backend indexes. `users` holds one sub-index per
 * username, in which the reserved attribute "password" is the login password;
 * `tokens` maps each session token to its username. Every backend error is
 * turned into one of the store's error kinds before it leaves this layer,
 * except where the code passes it on as it is (`Backend`).
 */
module Storage {
  import opened Wrappers
  import B = Backend

  /** The reserved attribute of a user namespace that holds the password. */
  const PasswordKey := "password"

  /**
   * ErrNotFound, ErrUnavailable, ErrUnknown, ErrAlreadyExists, and a backend
   * error handed on unconverted.
   */
  datatype Error = NotFound | Unavailable | Unknown | AlreadyExists | Backend(fault: B.Fault)

  /**
   * Error of a failed index.Get or tokens.Get: not-found and unavailable keep
   * their kind, anything else is Unknown (and would be logged).
   */
  function ReadError(e: B.Fault): (r: Error)
    ensures r == NotFound <==> e == B.NotFound
    ensures r == Unavailable <==> e == B.Unavailable
    ensures r == NotFound || r == Unavailable || r == Unknown
  {
    if e == B.NotFound then NotFound
    else if e == B.Unavailable then Unavailable
    else Unknown
  }

  /**
   * handleIndexError, for a users.Index or index.GetIndex failure: only
   * unavailability keeps its kind; a missing index and every unrecognised
   * error are both Unknown.
   */
  function HandleIndexError(e: B.Fault): (r: Error)
    ensures r == Unavailable <==> e == B.Unavailable
    ensures r == Unavailable || r == Unknown
    ensures e == B.IndexNotFound ==> r == Unknown
  {
    if e == B.IndexNotFound then Unknown
    else if e == B.Unavailable then Unavailable
    else Unknown
  }

  /** Error of a failed overwriting index.Set: not-found too becomes Unknown. */
  function WriteError(e: B.Fault): (r: Error)
    ensures r == Unavailable <==> e == B.Unavailable
    ensures r == Unavailable || r == Unknown
  {
    if e == B.Unavailable then Unavailable else Unknown
  }

  /** Error of a failed insert (AddUser, AddToken): a constraint violation means the entry exists. */
  function InsertError(e: B.Fault): (r: Error)
    ensures r == AlreadyExists <==> e == B.UniqueConstraint
    ensures r == Unavailable <==> e == B.Unavailable
    ensures r == AlreadyExists || r == Unavailable || r == Unknown
  {
    if e == B.UniqueConstraint then AlreadyExists
    else if e == B.Unavailable then Unavailable
    else Unknown
  }

  /**
   * Error of a failed index.DeleteAttr: not-found and unavailable keep their
   * kind, and every other backend error is returned as it is, not as Unknown.
   */
  function DeleteError(e: B.Fault): (r: Error)
    ensures r == NotFound <==> e == B.NotFound
    ensures r == Unavailable <==> e == B.Unavailable
    ensures e != B.NotFound && e != B.Unavailable ==> r == Backend(e)
  {
    if e == B.NotFound then NotFound
    else if e == B.Unavailable then Unavailable
    else Backend(e)
  }

  /** True when `names` lists each of its elements once. */
  predicate Distinct(names: seq<string>)
  {
    forall i, j :: 0 <= i < j < |names| ==> names[i] != names[j]
  }

  class Storage {
    /** The `users` index: username -> that user's namespace. */
    var users: map<string, B.Index>
    /** The `tokens` index: token -> username. */
    var tokens: map<string, string>

    /**
     * New: the store over the backend's "users" and "tokens" indexes, with
     * whatever they already hold.
     */
    constructor (users: map<string, B.Index>, tokens: map<string, string>)
      ensures this.users == users && this.tokens == tokens
    {
      this.users := users;
      this.tokens := tokens;
    }

    /** The sub-index users.Index(u) opens; an index never written is empty. */
    function Namespace(u: string): B.Index
      reads this
    {
      if u in users then users[u] else map[]
    }

    /** Get returns the value stored under `key` in `username`'s namespace. */
    function Get(username: string, key: string, f: B.Faults): (r: Result<string, Error>)
      reads this
      ensures r.Ok? <==> f.openIndex.None? && f.attrGet.None? && key in Namespace(username)
      ensures r.Ok? ==> r.value == Namespace(username)[key]
      ensures f.openIndex.Some? ==> r == Err(HandleIndexError(f.openIndex.value))
      ensures f.openIndex.None? && f.attrGet.None? && key !in Namespace(username) ==> r == Err(NotFound)
      ensures f.openIndex.None? && f.attrGet.Some? ==> r == Err(ReadError(f.attrGet.value))
    {
      if f.openIndex.Some? then Err(HandleIndexError(f.openIndex.value))
      else match B.Get(Namespace(username), key, f.attrGet)
        case Ok(v) => Ok(v)
        case Err(e) => Err(ReadError(e))
    }

    /**
     * Set stores `value` under `key`, overwriting what was there. Only that
     * entry of that user's namespace changes.
     */
    method Set(username: string, key: string, value: string, f: B.Faults) returns (err: Option<Error>)
      modifies this
      ensures tokens == old(tokens)
      ensures err.None? <==> f.openIndex.None? && f.attrSet.None?
      ensures err.None? ==> users == old(users)[username := old(Namespace(username))[key := value]]
      ensures err.Some? ==> users == old(users)
      ensures f.openIndex.Some? ==> err == Some(HandleIndexError(f.openIndex.value))
      ensures f.openIndex.None? && f.attrSet.Some? ==> err == Some(WriteError(f.attrSet.value))
      ensures err.None? ==> Get(username, key, B.NoFaults) == Ok(value)
      ensures forall u, k :: (u, k) != (username, key) ==> Get(u, k, f) == old(Get(u, k, f))
    {
      if f.openIndex.Some? {
        return Some(HandleIndexError(f.openIndex.value));
      }
      match B.Set(Namespace(username), key, value, false, f.attrSet)
      case Err(e) =>
        err := Some(WriteError(e));
      case Ok(index) =>
        users := users[username := index];
        err := None;
    }

    /**
     * AddToken binds `token` to `username`. The write does not ask for
     * uniqueness, so it replaces an existing binding of the same token.
     */
    method AddToken(token: string, username: string, f: B.Faults) returns (err: Option<Error>)
      modifies this
      ensures users == old(users)
      ensures err.None? <==> f.tokenSet.None?
      ensures err.None? ==> tokens == old(tokens)[token := username]
      ensures err.Some? ==> tokens == old(tokens) && err == Some(InsertError(f.tokenSet.value))
      ensures err.None? ==> GetUsername(token, B.NoFaults) == Ok(username)
    {
      match B.Set(tokens, token, username, false, f.tokenSet)
      case Err(e) =>
        err := Some(InsertError(e));
      case Ok(index) =>
        tokens := index;
        err := None;
    }

    /** GetUsername returns the username `token` is bound to. */
    function GetUsername(token: string, f: B.Faults): (r: Result<string, Error>)
      reads this
      ensures r.Ok? <==> f.tokenGet.None? && token in tokens
      ensures r.Ok? ==> r.value == tokens[token]
      ensures f.tokenGet.None? && token !in tokens ==> r == Err(NotFound)
      ensures f.tokenGet.Some? ==> r == Err(ReadError(f.tokenGet.value))
    {
      match B.Get(tokens, token, f.tokenGet)
      case Ok(u) => Ok(u)
      case Err(e) => Err(ReadError(e))
    }

    /**
     * AddUser creates the user by a unique insert of the password under the
     * reserved key: a second registration of the name fails with
     * AlreadyExists and leaves the first password in place.
     */
    method AddUser(username: string, password: string, f: B.Faults) returns (err: Option<Error>)
      modifies this
      ensures tokens == old(tokens)
      ensures err.None? <==> f.openIndex.None? && f.attrSet.None? && PasswordKey !in old(Namespace(username))
      ensures err.None? ==> users == old(users)[username := old(Namespace(username))[PasswordKey := password]]
      ensures err.Some? ==> users == old(users)
      ensures f.openIndex.None? && f.attrSet.None? && PasswordKey in old(Namespace(username)) ==> err == Some(AlreadyExists)
      ensures f.openIndex.Some? ==> err == Some(HandleIndexError(f.openIndex.value))
      ensures f.openIndex.None? && f.attrSet.Some? ==> err == Some(InsertError(f.attrSet.value))
      ensures err.None? ==> GetPassword(username, B.NoFaults) == Ok(password)
    {
      if f.openIndex.Some? {
        return Some(HandleIndexError(f.openIndex.value));
      }
      match B.Set(Namespace(username), PasswordKey, password, true, f.attrSet)
      case Err(e) =>
        err := Some(InsertError(e));
      case Ok(index) =>
        users := users[username := index];
        err := None;
    }

    /** GetPassword reads the reserved attribute; it is Get of that key. */
    function GetPassword(username: string, f: B.Faults): (r: Result<string, Error>)
      reads this
      ensures r == Get(username, PasswordKey, f)
      ensures r.Ok? <==> f.openIndex.None? && f.attrGet.None? && PasswordKey in Namespace(username)
      ensures f.openIndex.None? && f.attrGet.None? && PasswordKey !in Namespace(username) ==> r == Err(NotFound)
    {
      Get(username, PasswordKey, f)
    }

    /**
     * GetAllNames lists the keys of the user's namespace other than the
     * password entry and an entry named like the user, each once, in no
     * particular order. A failure to open the index is returned unconverted;
     * a failure to read it goes through HandleIndexError.
     */
    method GetAllNames(username: string, f: B.Faults) returns (r: Result<seq<string>, Error>)
      ensures f.openIndex.Some? ==> r == Err(Backend(f.openIndex.value))
      ensures f.openIndex.None? && f.readIndex.Some? ==> r == Err(HandleIndexError(f.readIndex.value))
      ensures r.Ok? <==> f.openIndex.None? && f.readIndex.None?
      ensures r.Ok? ==> Distinct(r.value)
      ensures r.Ok? ==> forall n :: n in r.value <==> n in Namespace(username) && n != PasswordKey && n != username
    {
      if f.openIndex.Some? {
        return Err(Backend(f.openIndex.value));
      }
      var keyValues: B.Index;
      match B.Read(Namespace(username), f.readIndex)
      case Err(e) =>
        return Err(HandleIndexError(e));
      case Ok(index) =>
        keyValues := index;
      keyValues := keyValues - {PasswordKey};
      keyValues := keyValues - {username};
      var names: seq<string> := [];
      var rest := keyValues.Keys;
      while rest != {}
        invariant rest <= keyValues.Keys
        invariant forall n :: n in names <==> n in keyValues && n !in rest
        invariant Distinct(names)
        decreases rest
      {
        var key :| key in rest;
        names := names + [key];
        rest := rest - {key};
      }
      r := Ok(names);
    }

    /**
     * Delete removes `key` from the user's namespace; removing an absent key
     * fails with NotFound.
     */
    method Delete(username: string, key: string, f: B.Faults) returns (err: Option<Error>)
      modifies this
      ensures tokens == old(tokens)
      ensures err.None? <==> f.openIndex.None? && f.attrDelete.None? && key in old(Namespace(username))
      ensures err.None? ==> users == old(users)[username := old(Namespace(username)) - {key}]
      ensures err.Some? ==> users == old(users)
      ensures f.openIndex.None? && f.attrDelete.None? && key !in old(Namespace(username)) ==> err == Some(NotFound)
      ensures f.openIndex.Some? ==> err == Some(HandleIndexError(f.openIndex.value))
      ensures f.openIndex.None? && f.attrDelete.Some? ==> err == Some(DeleteError(f.attrDelete.value))
      ensures err.None? ==> Get(username, key, B.NoFaults) == Err(NotFound)
    {
      if f.openIndex.Some? {
        return Some(HandleIndexError(f.openIndex.value));
      }
      match B.Delete(Namespace(username), key, f.attrDelete)
      case Err(e) =>
        err := Some(DeleteError(e));
      case Ok(index) =>
        users := users[username := index];
        err := None;
    }
  }
}
