/** The serverless variant's key/value store: JSON documents under string
    keys, reachable only when a store is configured. */
module KeyValue {
  import opened Wrappers
  import Sessions
  import Sync
  import Credentials

  /** The documents the service stores. */
  datatype Value =
    | DevicesDoc(devices: seq<Sessions.Device>)
    | TasksDoc(tasks: Sync.Synced<seq<Sync.Task>>)
    | NotesDoc(notes: Sync.Synced<seq<Sync.Note>>)
    | ContextDoc(context: Sync.Synced<map<string, string>>)
    | TokenDoc(cred: Credentials.Credential)

  /** A stored entry: JSON text that decodes, or text that does not. */
  datatype Stored = Json(value: Value) | Unreadable

  /** The store: whether one is configured, and its entries. */
  datatype Store = Store(connected: bool, entries: map<string, Stored>)

  /** `get_data(key)`: the decoded document, or `None` (the caller's
      default) when no store is configured, the key is missing or the text
      does not decode. */
  function Get(s: Store, key: string): (r: Option<Value>)
    ensures r.Some? <==> s.connected && key in s.entries && s.entries[key].Json?
    ensures r.Some? ==> s.entries[key] == Json(r.value)
  {
    if s.connected && key in s.entries && s.entries[key].Json? then Some(s.entries[key].value) else None
  }

  /** `set_data(key, value)`: stores the document when a store is
      configured; without one nothing changes (and `False` is returned). */
  function Put(s: Store, key: string, v: Value): (r: Store)
    ensures r.connected == s.connected
    ensures !s.connected ==> r == s
    ensures s.connected ==> r.entries == s.entries[key := Json(v)]
  {
    if s.connected then s.(entries := s.entries[key := Json(v)]) else s
  }

  /** A successful write is read back. */
  lemma PutThenGet(s: Store, key: string, v: Value)
    requires s.connected
    ensures Get(Put(s, key, v), key) == Some(v)
  {
  }

  /** A write changes no other key. */
  lemma PutOtherKey(s: Store, key: string, other: string, v: Value)
    requires other != key
    ensures Get(Put(s, key, v), other) == Get(s, other)
  {
  }

  /** Without a store every read yields the default. */
  lemma Disconnected(s: Store, key: string)
    requires !s.connected
    ensures Get(s, key).None?
  {
  }

  // ---------------------------------------------------------------------------
  // Typed reads with the routes' defaults
  // ---------------------------------------------------------------------------

  const DevicesKey: string := "devices"
  const TasksKey: string := "tasks"
  const NotesKey: string := "notes"
  const ContextKey: string := "context"

  /** The key of an account's credential: the account name as it is. */
  function TokenKey(email: string): string {
    "gmail_token_" + email
  }

  /** Unlike the server's token file names, distinct accounts never share a
      key. */
  lemma TokenKeyInjective(a: string, b: string)
    requires a != b
    ensures TokenKey(a) != TokenKey(b)
  {
    assert TokenKey(a)[12..] == a && TokenKey(b)[12..] == b;
  }

  /** The device list, `[]` by default. */
  function StoredDevices(s: Store): (r: seq<Sessions.Device>)
    ensures Get(s, DevicesKey).Some? && Get(s, DevicesKey).value.DevicesDoc? ==> r == Get(s, DevicesKey).value.devices
    ensures !(Get(s, DevicesKey).Some? && Get(s, DevicesKey).value.DevicesDoc?) ==> r == []
  {
    match Get(s, DevicesKey)
    case Some(DevicesDoc(ds)) => ds
    case _ => []
  }

  /** The tasks record, `{"tasks": [], "syncedAt": null}` by default. */
  function StoredTasks(s: Store): (r: Sync.Synced<seq<Sync.Task>>)
    ensures Get(s, TasksKey).Some? && Get(s, TasksKey).value.TasksDoc? ==> r == Get(s, TasksKey).value.tasks
    ensures !(Get(s, TasksKey).Some? && Get(s, TasksKey).value.TasksDoc?) ==> r == Sync.Synced([], Sync.Null)
  {
    match Get(s, TasksKey)
    case Some(TasksDoc(t)) => t
    case _ => Sync.Synced([], Sync.Null)
  }

  /** The notes record, `{"notes": [], "syncedAt": null}` by default. */
  function StoredNotes(s: Store): (r: Sync.Synced<seq<Sync.Note>>)
    ensures Get(s, NotesKey).Some? && Get(s, NotesKey).value.NotesDoc? ==> r == Get(s, NotesKey).value.notes
    ensures !(Get(s, NotesKey).Some? && Get(s, NotesKey).value.NotesDoc?) ==> r == Sync.Synced([], Sync.Null)
  {
    match Get(s, NotesKey)
    case Some(NotesDoc(n)) => n
    case _ => Sync.Synced([], Sync.Null)
  }

  /** The context record, `{"files": {}, "syncedAt": null}` by default. */
  function StoredContext(s: Store): (r: Sync.Synced<map<string, string>>)
    ensures Get(s, ContextKey).Some? && Get(s, ContextKey).value.ContextDoc? ==> r == Get(s, ContextKey).value.context
    ensures !(Get(s, ContextKey).Some? && Get(s, ContextKey).value.ContextDoc?) ==> r == Sync.Synced(map[], Sync.Null)
  {
    match Get(s, ContextKey)
    case Some(ContextDoc(c)) => c
    case _ => Sync.Synced(map[], Sync.Null)
  }

  /** A POSTed collection is what a later GET returns, when a store is
      configured. */
  lemma PostThenGetTasks(s: Store, tasks: Sync.Synced<seq<Sync.Task>>)
    requires s.connected
    ensures StoredTasks(Put(s, TasksKey, TasksDoc(tasks))) == tasks
  {
  }

  /** Without a store a POST is acknowledged but lost: the next GET returns
      the default. */
  lemma PostWithoutStoreLost(s: Store, tasks: Sync.Synced<seq<Sync.Task>>)
    requires !s.connected
    ensures StoredTasks(Put(s, TasksKey, TasksDoc(tasks))) == Sync.Synced([], Sync.Null)
  {
  }
}
