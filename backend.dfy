/**
 * The key-value index service the store is built on (the itisadb SDK), reduced
 * to what the store relies on: an index is a map from attribute names to
 * values, and every call either answers from that map or fails with a fault.
 * A fault is either forced by the state (reading an absent key, a unique
 * insert over an existing key) or injected by the environment through a
 * `Faults` record, which has one slot per kind of backend call.
 */
module Backend {
  import opened Wrappers

  /** The backend errors the store distinguishes, plus everything else. */
  datatype Fault = NotFound | Unavailable | UniqueConstraint | IndexNotFound | Other

  /**
   * What the environment makes each backend call answer during one request.
   * None means the call reaches the data and answers from it.
   */
  datatype Faults = Faults(
    tokenGet: Option<Fault>,    // tokens.Get
    tokenSet: Option<Fault>,    // tokens.Set
    openIndex: Option<Fault>,   // users.Index(username)
    attrGet: Option<Fault>,     // index.Get
    attrSet: Option<Fault>,     // index.Set
    attrDelete: Option<Fault>,  // index.DeleteAttr
    readIndex: Option<Fault>    // index.GetIndex
  )

  /** A healthy backend. */
  const NoFaults := Faults(None, None, None, None, None, None, None)

  type Index = map<string, string>

  /** index.Get(key) */
  function Get(m: Index, key: string, fault: Option<Fault>): (r: Result<string, Fault>)
  {
    if fault.Some? then Err(fault.value)
    else if key in m then Ok(m[key])
    else Err(NotFound)
  }

  /** index.Set(key, value, unique): a unique insert refuses to overwrite. */
  function Set(m: Index, key: string, value: string, unique: bool, fault: Option<Fault>): (r: Result<Index, Fault>)
  {
    if fault.Some? then Err(fault.value)
    else if unique && key in m then Err(UniqueConstraint)
    else Ok(m[key := value])
  }

  /** index.DeleteAttr(key) */
  function Delete(m: Index, key: string, fault: Option<Fault>): (r: Result<Index, Fault>)
  {
    if fault.Some? then Err(fault.value)
    else if key in m then Ok(m - {key})
    else Err(NotFound)
  }

  /** index.GetIndex(): a copy of the whole index. */
  function Read(m: Index, fault: Option<Fault>): (r: Result<Index, Fault>)
  {
    if fault.Some? then Err(fault.value) else Ok(m)
  }
}
