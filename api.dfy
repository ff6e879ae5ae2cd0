/** The serverless variant: the same routes over the key/value store. Each
    request reloads what it needs from the store; there is no service
    memo. */
module Serverless {
  import opened Wrappers
  import Seqs
  import Sessions
  import Auth
  import Sync
  import Credentials
  import Aggregate
  import Accounts
  import Http
  import KeyValue

  // ---------------------------------------------------------------------------
  // Device tokens over the store
  // ---------------------------------------------------------------------------

  /** A validation's verdict and the store afterwards. */
  datatype Checked = Checked(device: Option<Sessions.Device>, store: KeyValue.Store)

  /** `validate_device_token`: validate against the stored device list and
      write the list back only when a device was accepted. */
  function Validate(s: KeyValue.Store, hash: string -> string, token: string, now: int): (r: Checked)
    ensures r.device == Sessions.Validation(KeyValue.StoredDevices(s), hash, token, now).device
    ensures r.device.None? ==> r.store == s
    ensures r.store.connected == s.connected
    ensures forall k :: k != KeyValue.DevicesKey ==> KeyValue.Get(r.store, k) == KeyValue.Get(s, k)
  {
    var v := Sessions.Validation(KeyValue.StoredDevices(s), hash, token, now);
    if v.device.Some? then Checked(v.device, KeyValue.Put(s, KeyValue.DevicesKey, KeyValue.DevicesDoc(v.devices)))
    else Checked(None, s)
  }

  /** The store after `create_device`: the loaded list with one new record,
      written back. */
  function Created(s: KeyValue.Store, hash: string -> string, secret: string, email: string,
                   deviceName: string, now: int): (r: KeyValue.Store)
    ensures s.connected ==>
              KeyValue.StoredDevices(r) == KeyValue.StoredDevices(s) + [Sessions.NewDevice(hash, secret, email, deviceName, now)]
    ensures !s.connected ==> r == s
  {
    KeyValue.Put(s, KeyValue.DevicesKey,
                 KeyValue.DevicesDoc(KeyValue.StoredDevices(s) + [Sessions.NewDevice(hash, secret, email, deviceName, now)]))
  }

  /** With a store, a token just created validates until it expires,
      provided no stored device has the same hash. */
  lemma CreateThenValidate(s: KeyValue.Store, hash: string -> string, secret: string, email: string,
                           deviceName: string, created: int, now: int)
    requires s.connected && secret != ""
    requires forall d :: d in KeyValue.StoredDevices(s) ==> d.tokenHash != hash(secret)
    ensures var r := Validate(Created(s, hash, secret, email, deviceName, created), hash, secret, now);
            r.device.Some? <==> now <= created + Sessions.DeviceLifetime
  {
    var ds := KeyValue.StoredDevices(s);
    assert forall j :: 0 <= j < |ds| ==> ds[j].tokenHash != hash(secret) by {
      forall j | 0 <= j < |ds| ensures ds[j].tokenHash != hash(secret) {
        assert ds[j] in ds;
      }
    }
    Sessions.CreateThenValidate(ds, hash, secret, email, deviceName, created, now);
  }

  /** Without a store the created record is lost, so the token never
      validates. */
  lemma CreateWithoutStore(s: KeyValue.Store, hash: string -> string, secret: string, email: string,
                           deviceName: string, created: int, now: int)
    requires !s.connected
    ensures Validate(Created(s, hash, secret, email, deviceName, created), hash, secret, now).device.None?
  {
  }

  // ---------------------------------------------------------------------------
  // Views
  // ---------------------------------------------------------------------------

  /** The GET routes that read one stored collection. */
  datatype View = AllTasks | OpenTasks | TodayTasks | AllNotes | WerkbankNotes | ProjectNotes | AllContext

  /** The reply of a view over a store at time `now`. */
  function ViewOf(view: View, s: KeyValue.Store, now: int): (r: Http.Reply)
    ensures view.OpenTasks? ==>
              r == Http.TaskList(Sync.OpenTasks(KeyValue.StoredTasks(s).content), KeyValue.StoredTasks(s).syncedAt)
    ensures view.TodayTasks? ==>
              r == Http.TaskList(Sync.TodayTasks(KeyValue.StoredTasks(s).content, now), KeyValue.StoredTasks(s).syncedAt)
    ensures !s.connected && view.AllTasks? ==> r == Http.TaskList([], Sync.Null)
    ensures !s.connected && view.AllContext? ==> r == Http.Files(map[], Sync.Null)
  {
    match view
    case AllTasks => Http.TaskList(KeyValue.StoredTasks(s).content, KeyValue.StoredTasks(s).syncedAt)
    case OpenTasks => Http.TaskList(Sync.OpenTasks(KeyValue.StoredTasks(s).content), KeyValue.StoredTasks(s).syncedAt)
    case TodayTasks => Http.TaskList(Sync.TodayTasks(KeyValue.StoredTasks(s).content, now), KeyValue.StoredTasks(s).syncedAt)
    case AllNotes => Http.NoteList(KeyValue.StoredNotes(s).content, KeyValue.StoredNotes(s).syncedAt)
    case WerkbankNotes =>
      Http.NoteList(Sync.NotesOfType(KeyValue.StoredNotes(s).content, Sync.WerkbankType), KeyValue.StoredNotes(s).syncedAt)
    case ProjectNotes =>
      Http.NoteList(Sync.NotesOfType(KeyValue.StoredNotes(s).content, Sync.ProjectType), KeyValue.StoredNotes(s).syncedAt)
    case AllContext => Http.Files(KeyValue.StoredContext(s).content, KeyValue.StoredContext(s).syncedAt)
  }

  /** Validation writes only the device list, so every view reads the same
      collections before and after it. */
  lemma ValidationKeepsViews(s: KeyValue.Store, hash: string -> string, token: string, now: int, view: View)
    ensures ViewOf(view, Validate(s, hash, token, now).store, now) == ViewOf(view, s, now)
  {
    var t := Validate(s, hash, token, now).store;
    assert KeyValue.Get(t, KeyValue.TasksKey) == KeyValue.Get(s, KeyValue.TasksKey);
    assert KeyValue.Get(t, KeyValue.NotesKey) == KeyValue.Get(s, KeyValue.NotesKey);
    assert KeyValue.Get(t, KeyValue.ContextKey) == KeyValue.Get(s, KeyValue.ContextKey);
    assert KeyValue.StoredTasks(t) == KeyValue.StoredTasks(s);
    assert KeyValue.StoredNotes(t) == KeyValue.StoredNotes(s);
    assert KeyValue.StoredContext(t) == KeyValue.StoredContext(s);
  }

  /** The POST routes that replace one collection. */
  datatype Collection = TasksCollection | NotesCollection | ContextCollection

  /** The key a collection is stored under and the document a body gives. */
  function CollectionKey(c: Collection): string {
    match c
    case TasksCollection => KeyValue.TasksKey
    case NotesCollection => KeyValue.NotesKey
    case ContextCollection => KeyValue.ContextKey
  }

  /** The document a POST body replaces a collection with, and the reply. */
  function Replacement(c: Collection, body: Http.Body, now: int): (r: (KeyValue.Value, Http.Reply))
    ensures c.TasksCollection? ==>
              var t := Sync.Replace(body.tasks, [], body.syncedAt, now);
              r == (KeyValue.TasksDoc(t), Http.Count(|t.content|))
    ensures c.NotesCollection? ==>
              var n := Sync.Replace(body.notes, [], body.syncedAt, now);
              r == (KeyValue.NotesDoc(n), Http.Count(|n.content|))
    ensures c.ContextCollection? ==>
              var f := Sync.Replace(body.files, map[], body.syncedAt, now);
              r == (KeyValue.ContextDoc(f), Http.FileNames(f.content.Keys))
  {
    match c
    case TasksCollection =>
      var t := Sync.Replace(body.tasks, [], body.syncedAt, now);
      (KeyValue.TasksDoc(t), Http.Count(|t.content|))
    case NotesCollection =>
      var n := Sync.Replace(body.notes, [], body.syncedAt, now);
      (KeyValue.NotesDoc(n), Http.Count(|n.content|))
    case ContextCollection =>
      var f := Sync.Replace(body.files, map[], body.syncedAt, now);
      (KeyValue.ContextDoc(f), Http.FileNames(f.content.Keys))
  }

  /** A replaced collection is what the matching view then shows. */
  lemma PostThenView(s: KeyValue.Store, body: Http.Body, now: int, later: int)
    requires s.connected
    ensures var doc := Replacement(TasksCollection, body, now).0;
            ViewOf(AllTasks, KeyValue.Put(s, KeyValue.TasksKey, doc), later)
            == Http.TaskList(body.tasks.GetOr([]), body.syncedAt.GetOr(Sync.At(now * 1000)))
  {
  }

  // ---------------------------------------------------------------------------
  // Gmail over the store
  // ---------------------------------------------------------------------------

  /** The exception text of a stored token document that is not a
      credential. */
  const MalformedToken: string := "Authorized user info was not in the expected format"

  /** A handle from a credential, when it is valid. */
  function Usable(c: Credentials.Credential): (r: Remote<Option<Credentials.Service>>)
    ensures r.Answer?
    ensures r.value.Some? <==> c.valid
    ensures r.value.Some? ==> r.value.value == Credentials.Service(Credentials.Gmail, c)
  {
    Answer(if c.valid then Some(Credentials.Service(Credentials.Gmail, c)) else None)
  }

  /** `get_gmail_service`: no stored token gives no handle; a stored
      document that is not a credential, or a refresh that fails, raises; a
      refreshed credential is written back. */
  function Acquire(s: KeyValue.Store, refresh: Credentials.Credential -> Remote<Credentials.Credential>, email: string)
    : (r: (Remote<Option<Credentials.Service>>, KeyValue.Store))
    ensures KeyValue.Get(s, KeyValue.TokenKey(email)).None? ==> r == (Answer(None), s)
    ensures r.0.Answer? && r.0.value.Some? ==> r.0.value.value.kind == Credentials.Gmail && r.0.value.value.cred.valid
    ensures r.1.connected == s.connected
    ensures forall k :: k != KeyValue.TokenKey(email) ==> KeyValue.Get(r.1, k) == KeyValue.Get(s, k)
    ensures var doc := KeyValue.Get(s, KeyValue.TokenKey(email));
            doc.Some? && !doc.value.TokenDoc? ==> r == (Raises(MalformedToken), s)
    ensures var doc := KeyValue.Get(s, KeyValue.TokenKey(email));
            doc.Some? && doc.value.TokenDoc? && Credentials.NeedsRefresh(doc.value.cred) ==>
              match refresh(doc.value.cred)
              case Raises(message) => r == (Raises(message), s)
              case Answer(renewed) =>
                && r.1 == KeyValue.Put(s, KeyValue.TokenKey(email), KeyValue.TokenDoc(renewed))
                && r.0 == Usable(renewed)
    ensures var doc := KeyValue.Get(s, KeyValue.TokenKey(email));
            doc.Some? && doc.value.TokenDoc? && !Credentials.NeedsRefresh(doc.value.cred) ==>
              r == (Usable(doc.value.cred), s)
  {
    var key := KeyValue.TokenKey(email);
    match KeyValue.Get(s, key)
    case None => (Answer(None), s)
    case Some(doc) =>
      if !doc.TokenDoc? then (Raises(MalformedToken), s)
      else if Credentials.NeedsRefresh(doc.cred) then
        match refresh(doc.cred)
        case Raises(message) => (Raises(message), s)
        case Answer(renewed) => (Usable(renewed), KeyValue.Put(s, key, KeyValue.TokenDoc(renewed)))
      else (Usable(doc.cred), s)
  }

  /** After POST `/gmail/token` the next lookup uses the new credential. */
  lemma TokenThenAcquire(s: KeyValue.Store, refresh: Credentials.Credential -> Remote<Credentials.Credential>,
                         email: string, cred: Credentials.Credential)
    requires s.connected && cred.valid && !Credentials.NeedsRefresh(cred)
    ensures Acquire(KeyValue.Put(s, KeyValue.TokenKey(email), KeyValue.TokenDoc(cred)), refresh, email).0
         == Answer(Some(Credentials.Service(Credentials.Gmail, cred)))
  {
  }

  /** `fetch_emails` as written: the service lookup sits outside the `try`,
      so an exception it raises escapes. */
  function AccountEmailsAsWritten(s: KeyValue.Store, refresh: Credentials.Credential -> Remote<Credentials.Credential>,
                                  email: string, answer: Remote<seq<Aggregate.RawMessage>>)
    : (r: (Remote<seq<Aggregate.EmailRecord>>, KeyValue.Store))
    ensures r.1 == Acquire(s, refresh, email).1
    ensures r.0.Raises? <==> Acquire(s, refresh, email).0.Raises?
  {
    var (svc, after) := Acquire(s, refresh, email);
    match svc
    case Raises(message) => (Raises(message), after)
    case Answer(service) => (Answer(Aggregate.EmailRecords(email, service, answer)), after)
  }

  /** The merge loop as written: the first escaping exception aborts the
      whole request. */
  function MergeAsWritten(s: KeyValue.Store, refresh: Credentials.Credential -> Remote<Credentials.Credential>,
                          accounts: seq<string>, answers: string -> Remote<seq<Aggregate.RawMessage>>)
    : (r: (Remote<seq<Aggregate.EmailRecord>>, KeyValue.Store))
    ensures r.0.Answer? ==> forall e :: e in r.0.value ==> e.account in accounts
    decreases |accounts|
  {
    if |accounts| == 0 then (Answer([]), s)
    else
      var (first, s1) := AccountEmailsAsWritten(s, refresh, accounts[0], answers(accounts[0]));
      match first
      case Raises(message) => (Raises(message), s1)
      case Answer(records) =>
        var (rest, s2) := MergeAsWritten(s1, refresh, accounts[1..], answers);
        match rest
        case Raises(message) => (Raises(message), s2)
        case Answer(more) =>
          assert forall a :: a in accounts[1..] ==> a in accounts;
          (Answer(records + more), s2)
  }

  /** `fetch_emails` with the lookup inside the `try`: an account whose
      lookup raises contributes one error record carrying the exception
      text, like any other failing account. */
  function AccountEmails(s: KeyValue.Store, refresh: Credentials.Credential -> Remote<Credentials.Credential>,
                         email: string, answer: Remote<seq<Aggregate.RawMessage>>)
    : (r: (seq<Aggregate.EmailRecord>, KeyValue.Store))
    ensures r.1 == Acquire(s, refresh, email).1
    ensures Acquire(s, refresh, email).0.Raises? ==> r.0 == [Aggregate.EmailError(Acquire(s, refresh, email).0.message, email)]
    ensures (|r.0| == 1 && r.0[0].EmailError?) || (forall e :: e in r.0 ==> e.Email?)
    ensures forall e :: e in r.0 ==> e.account == email
  {
    var (svc, after) := Acquire(s, refresh, email);
    match svc
    case Raises(message) => ([Aggregate.EmailError(message, email)], after)
    case Answer(service) =>
      Aggregate.EmailRecordsShape(email, service, answer);
      (Aggregate.EmailRecords(email, service, answer), after)
  }

  /** The merge loop with per-account isolation. */
  function Merge(s: KeyValue.Store, refresh: Credentials.Credential -> Remote<Credentials.Credential>,
                 accounts: seq<string>, answers: string -> Remote<seq<Aggregate.RawMessage>>)
    : (r: (seq<Aggregate.EmailRecord>, KeyValue.Store))
    ensures forall e :: e in r.0 ==> e.account in accounts
    decreases |accounts|
  {
    if |accounts| == 0 then ([], s)
    else
      var (records, s1) := AccountEmails(s, refresh, accounts[0], answers(accounts[0]));
      var (more, s2) := Merge(s1, refresh, accounts[1..], answers);
      assert forall a :: a in accounts[1..] ==> a in accounts;
      (records + more, s2)
  }

  /** One step of `Merge` from position `i`: once account `i`'s entries
      `records` are taken and the store is `after`, the rest of the merge
      from `after` completes the same result. */
  lemma MergeAdvance(before: KeyValue.Store, after: KeyValue.Store,
                     refresh: Credentials.Credential -> Remote<Credentials.Credential>,
                     accounts: seq<string>, i: nat, answers: string -> Remote<seq<Aggregate.RawMessage>>,
                     prior: seq<Aggregate.EmailRecord>, records: seq<Aggregate.EmailRecord>,
                     goal: (seq<Aggregate.EmailRecord>, KeyValue.Store))
    requires i < |accounts|
    requires (records, after) == AccountEmails(before, refresh, accounts[i], answers(accounts[i]))
    requires var r := Merge(before, refresh, accounts[i..], answers); prior + r.0 == goal.0 && r.1 == goal.1
    ensures var r := Merge(after, refresh, accounts[i + 1..], answers); (prior + records) + r.0 == goal.0 && r.1 == goal.1
  {
    assert accounts[i..][0] == accounts[i] && accounts[i..][1..] == accounts[i + 1..];
    var r := Merge(after, refresh, accounts[i + 1..], answers);
    assert Merge(before, refresh, accounts[i..], answers) == (records + r.0, r.1);
    assert prior + (records + r.0) == (prior + records) + r.0;
  }

  /** Whenever the request as written succeeds, the isolated merge gives the
      same entries and the same store. */
  lemma {:induction false} MergeAgreesWithAsWritten(s: KeyValue.Store,
                                                    refresh: Credentials.Credential -> Remote<Credentials.Credential>,
                                                    accounts: seq<string>,
                                                    answers: string -> Remote<seq<Aggregate.RawMessage>>)
    requires MergeAsWritten(s, refresh, accounts, answers).0.Answer?
    ensures MergeAsWritten(s, refresh, accounts, answers).0.value == Merge(s, refresh, accounts, answers).0
    ensures MergeAsWritten(s, refresh, accounts, answers).1 == Merge(s, refresh, accounts, answers).1
    decreases |accounts|
  {
    if |accounts| > 0 {
      var s1 := Acquire(s, refresh, accounts[0]).1;
      MergeAgreesWithAsWritten(s1, refresh, accounts[1..], answers);
    }
  }

  /** One account whose refresh fails makes the request as written fail,
      losing the other account's mail; the isolated merge keeps it and
      reports the failure as that account's error record. */
  lemma RefreshFailureAbortsMerge()
    ensures var expired := Credentials.Credential(false, true, true, "old");
            var good := Credentials.Credential(true, false, false, "live");
            var s := KeyValue.Store(true, map[KeyValue.TokenKey("a") := KeyValue.Json(KeyValue.TokenDoc(expired)),
                                               KeyValue.TokenKey("b") := KeyValue.Json(KeyValue.TokenDoc(good))]);
            var refresh := (c: Credentials.Credential) => Raises("invalid_grant");
            var answers := (e: string) => Answer([Aggregate.RawMessage("m1", [], None)]);
            && MergeAsWritten(s, refresh, ["a", "b"], answers).0 == Raises("invalid_grant")
            && Merge(s, refresh, ["a", "b"], answers).0
               == [Aggregate.EmailError("invalid_grant", "a"),
                   Aggregate.Email("m1", "(no subject)", "Unknown", "", "", "b")]
  {
    var expired := Credentials.Credential(false, true, true, "old");
    var good := Credentials.Credential(true, false, false, "live");
    var s := KeyValue.Store(true, map[KeyValue.TokenKey("a") := KeyValue.Json(KeyValue.TokenDoc(expired)),
                                       KeyValue.TokenKey("b") := KeyValue.Json(KeyValue.TokenDoc(good))]);
    var refresh := (c: Credentials.Credential) => Raises("invalid_grant");
    var answers := (e: string) => Answer([Aggregate.RawMessage("m1", [], None)]);
    assert KeyValue.TokenKey("a") != KeyValue.TokenKey("b") by {
      assert KeyValue.TokenKey("a")[12] != KeyValue.TokenKey("b")[12];
    }
    assert Acquire(s, refresh, "a") == (Raises("invalid_grant"), s);
    assert Acquire(s, refresh, "b") == (Answer(Some(Credentials.Service(Credentials.Gmail, good))), s);
    var accounts := ["a", "b"];
    assert accounts[1..] == ["b"] && accounts[1..][1..] == [];
    assert Aggregate.BuildEmails([Aggregate.RawMessage("m1", [], None)], "b")
        == [Aggregate.Email("m1", "(no subject)", "Unknown", "", "", "b")];
  }

  // ---------------------------------------------------------------------------
  // The service
  // ---------------------------------------------------------------------------

  class Api {
    const hash: string -> string
    const apiKey: string
    /** The stripped, non-empty configured accounts. */
    const accounts: seq<string>
    const refresh: Credentials.Credential -> Remote<Credentials.Credential>
    /** Whether a store is configured. */
    const connected: bool
    var entries: map<string, KeyValue.Stored>

    function Snapshot(): KeyValue.Store
      reads this`entries
    {
      KeyValue.Store(connected, entries)
    }

    /** `check_auth`'s verdict against a store. */
    function Granted(s: KeyValue.Store, req: Auth.Request, allowApiKey: bool, now: int): bool {
      Auth.Authorized(KeyValue.StoredDevices(s), hash, apiKey, req, allowApiKey, now)
    }

    /** The store after `check_auth`. */
    function AfterAuth(s: KeyValue.Store, req: Auth.Request, now: int): KeyValue.Store {
      Validate(s, hash, Auth.RequestToken(req), now).store
    }

    constructor (hash: string -> string, apiKey: string, accountSetting: string,
                 refresh: Credentials.Credential -> Remote<Credentials.Credential>,
                 connected: bool, entries: map<string, KeyValue.Stored>)
      ensures this.hash == hash && this.apiKey == apiKey && this.refresh == refresh
      ensures this.accounts == Accounts.ParsedAccounts(accountSetting)
      ensures this.connected == connected && this.entries == entries
    {
      this.hash := hash;
      this.apiKey := apiKey;
      this.accounts := Accounts.ParsedAccounts(accountSetting);
      this.refresh := refresh;
      this.connected := connected;
      this.entries := entries;
    }

    /** `set_data`. */
    method SetData(key: string, v: KeyValue.Value) returns (ok: bool)
      modifies this`entries
      ensures ok == connected
      ensures Snapshot() == KeyValue.Put(old(Snapshot()), key, v)
    {
      if !connected {
        return false;
      }
      entries := entries[key := KeyValue.Json(v)];
      return true;
    }

    /** `validate_device_token`. */
    method ValidateDeviceToken(token: string, now: int) returns (device: Option<Sessions.Device>)
      modifies this`entries
      ensures Checked(device, Snapshot()) == Validate(old(Snapshot()), hash, token, now)
    {
      if token == "" {
        return None;
      }
      var devices := KeyValue.StoredDevices(Snapshot());
      var updated;
      device, updated := Sessions.ValidateDevice(devices, hash, token, now);
      if device.Some? {
        var written := SetData(KeyValue.DevicesKey, KeyValue.DevicesDoc(updated));
      }
    }

    /** `create_device`. */
    method CreateDevice(email: string, deviceName: string, secret: string, now: int) returns (issued: string)
      modifies this`entries
      ensures issued == secret
      ensures Snapshot() == Created(old(Snapshot()), hash, secret, email, deviceName, now)
    {
      var devices := KeyValue.StoredDevices(Snapshot());
      var written := SetData(KeyValue.DevicesKey,
                             KeyValue.DevicesDoc(devices + [Sessions.NewDevice(hash, secret, email, deviceName, now)]));
      issued := secret;
    }

    /** `/callback`: the code exchange and the ID-token check are the
        `exchange` outcome and `secret` is the drawn device token. This
        deployment has no services flow: a sign-in always issues a device
        named "Web Browser". */
    method Callback(query: map<string, string>, exchange: Remote<Http.SignIn>, secret: string, now: int)
      returns (reply: Http.Reply)
      modifies this`entries
      ensures var step := Http.CallbackStep(query, accounts, exchange, false);
              && !step.Connect?
              && (step.Refused? ==> reply == step.reply && Snapshot() == old(Snapshot()))
              && (step.Issue? ==>
                    && reply == Http.LoggedIn(step.name, secret)
                    && Snapshot() == Created(old(Snapshot()), hash, secret, step.email, Http.DefaultDeviceName, now))
    {
      var step := Http.CallbackStep(query, accounts, exchange, false);
      if step.Issue? {
        var token := CreateDevice(step.email, step.deviceName, secret, now);
        reply := Http.LoggedIn(step.name, token);
      } else {
        reply := step.reply;
      }
    }

    /** `check_auth`. */
    method CheckAuth(req: Auth.Request, allowApiKey: bool, now: int) returns (ok: bool)
      modifies this`entries
      ensures ok == Granted(old(Snapshot()), req, allowApiKey, now)
      ensures Snapshot() == AfterAuth(old(Snapshot()), req, now)
    {
      var token := Auth.RequestToken(req);
      if token != "" {
        var device := ValidateDeviceToken(token, now);
        if device.Some? {
          return true;
        }
      }
      if allowApiKey && apiKey != "" {
        if Auth.Lookup(req.query, "key") == Some(apiKey) {
          return true;
        }
        if Auth.Lookup(req.headers, "X-API-Key") == Some(apiKey) {
          return true;
        }
      }
      return false;
    }

    /** `/health`: the stored counts and the number of accounts. */
    method Health() returns (reply: Http.Reply)
      ensures reply == Http.Healthy(|KeyValue.StoredTasks(Snapshot()).content|, |KeyValue.StoredNotes(Snapshot()).content|,
                                    |accounts|, |KeyValue.StoredDevices(Snapshot())|)
    {
      var s := Snapshot();
      reply := Http.Healthy(|KeyValue.StoredTasks(s).content|, |KeyValue.StoredNotes(s).content|,
                            |accounts|, |KeyValue.StoredDevices(s)|);
    }

    /** `/auth/status`: validates the `token` query parameter only. */
    method AuthStatus(req: Auth.Request, now: int) returns (reply: Http.Reply)
      modifies this`entries
      ensures var v := Validate(old(Snapshot()), hash, Auth.Lookup(req.query, "token").GetOr(""), now);
              reply == Http.AuthInfo(v.device) && Snapshot() == v.store
    {
      var token := Auth.Lookup(req.query, "token").GetOr("");
      var device := None;
      if token != "" {
        device := ValidateDeviceToken(token, now);
      }
      reply := Http.AuthInfo(device);
    }

    /** The GET routes over one stored collection, device token only. */
    method GetView(view: View, req: Auth.Request, now: int) returns (reply: Http.Reply)
      modifies this`entries
      ensures Snapshot() == AfterAuth(old(Snapshot()), req, now)
      ensures !Granted(old(Snapshot()), req, false, now) ==> reply == Http.Unauthorized
      ensures Granted(old(Snapshot()), req, false, now) ==> reply == ViewOf(view, old(Snapshot()), now)
    {
      ghost var before := Snapshot();
      var ok := CheckAuth(req, false, now);
      if !ok {
        return Http.Unauthorized;
      }
      ValidationKeepsViews(before, hash, Auth.RequestToken(req), now, view);
      reply := ViewOf(view, Snapshot(), now);
    }

    /** The POST routes that replace one collection; the reply does not
        depend on whether the write reached a store. */
    method PostCollection(c: Collection, req: Auth.Request, payload: Http.Payload, now: int) returns (reply: Http.Reply)
      modifies this`entries
      ensures !Granted(old(Snapshot()), req, true, now) ==>
                reply == Http.Unauthorized && Snapshot() == AfterAuth(old(Snapshot()), req, now)
      ensures Granted(old(Snapshot()), req, true, now) && payload.Malformed? ==>
                reply == Http.BadRequest(payload.message) && Snapshot() == AfterAuth(old(Snapshot()), req, now)
      ensures Granted(old(Snapshot()), req, true, now) && payload.Parsed? ==>
                var (doc, answer) := Replacement(c, payload.body, now);
                reply == answer && Snapshot() == KeyValue.Put(AfterAuth(old(Snapshot()), req, now), CollectionKey(c), doc)
    {
      var ok := CheckAuth(req, true, now);
      if !ok {
        return Http.Unauthorized;
      }
      match payload {
        case Malformed(message) =>
          reply := Http.BadRequest(message);
        case Parsed(body) =>
          var (doc, answer) := Replacement(c, body, now);
          var written := SetData(CollectionKey(c), doc);
          reply := answer;
      }
    }

    /** `get_gmail_service`. */
    method GetGmailService(email: string) returns (outcome: Remote<Option<Credentials.Service>>)
      modifies this`entries
      ensures (outcome, Snapshot()) == Acquire(old(Snapshot()), refresh, email)
    {
      var key := KeyValue.TokenKey(email);
      var doc := KeyValue.Get(Snapshot(), key);
      if doc.None? {
        return Answer(None);
      }
      if !doc.value.TokenDoc? {
        return Raises(MalformedToken);
      }
      var cred := doc.value.cred;
      if Credentials.NeedsRefresh(cred) {
        var renewed := refresh(cred);
        if renewed.Raises? {
          return Raises(renewed.message);
        }
        cred := renewed.value;
        var written := SetData(key, KeyValue.TokenDoc(cred));
      }
      outcome := Usable(cred);
    }

    /** `fetch_emails` in its corrected form (`AccountEmails`): an exception
        from the service lookup becomes the account's error record. As
        written, the lookup sits outside the `try` and the exception escapes
        (`AccountEmailsAsWritten`). */
    method FetchEmails(email: string, answer: Remote<seq<Aggregate.RawMessage>>) returns (records: seq<Aggregate.EmailRecord>)
      modifies this`entries
      ensures (records, Snapshot()) == AccountEmails(old(Snapshot()), refresh, email, answer)
    {
      var svc := GetGmailService(email);
      match svc {
        case Raises(message) =>
          records := [Aggregate.EmailError(message, email)];
        case Answer(service) =>
          records := Aggregate.EmailRecords(email, service, answer);
      }
    }

    /** `/emails/unread` and `/emails/recent` over the corrected per-account
        fetch (`Merge`): merge the accounts' entries in order and sort them
        by descending date. As written, one raising lookup fails the whole
        request instead (`MergeAsWritten`). */
    method Emails(req: Auth.Request, answers: string -> Remote<seq<Aggregate.RawMessage>>, now: int)
      returns (reply: Http.Reply)
      modifies this`entries
      ensures !Granted(old(Snapshot()), req, false, now) ==>
                reply == Http.Unauthorized && Snapshot() == AfterAuth(old(Snapshot()), req, now)
      ensures Granted(old(Snapshot()), req, false, now) ==>
                var m := Merge(AfterAuth(old(Snapshot()), req, now), refresh, accounts, answers);
                reply == Http.Emails(Aggregate.SortEmails(m.0)) && Snapshot() == m.1
    {
      var ok := CheckAuth(req, false, now);
      if !ok {
        return Http.Unauthorized;
      }
      var all := MergeEmails(answers);
      reply := Http.Emails(Aggregate.SortEmails(all));
    }

    /** The per-account loop of the email routes: each configured account's
        entries in turn, as `Merge` gives them. */
    method MergeEmails(answers: string -> Remote<seq<Aggregate.RawMessage>>)
      returns (all: seq<Aggregate.EmailRecord>)
      modifies this`entries
      ensures (all, Snapshot()) == Merge(old(Snapshot()), refresh, accounts, answers)
    {
      ghost var goal := Merge(Snapshot(), refresh, accounts, answers);
      all := [];
      var i := 0;
      assert accounts[0..] == accounts;
      assert [] + goal.0 == goal.0;
      while i < |accounts|
        invariant 0 <= i <= |accounts|
        invariant var rest := Merge(Snapshot(), refresh, accounts[i..], answers);
                  all + rest.0 == goal.0 && rest.1 == goal.1
      {
        ghost var before := Snapshot();
        var records := FetchEmails(accounts[i], answers(accounts[i]));
        MergeAdvance(before, Snapshot(), refresh, accounts, i, answers, all, records, goal);
        all := all + records;
        i := i + 1;
      }
      assert accounts[i..] == [];
      assert all + [] == all;
    }

    /** POST `/gmail/token`: store the credential under the account's key
        when both `email` and `token` are present and non-empty. */
    method GmailToken(req: Auth.Request, payload: Http.Payload, now: int) returns (reply: Http.Reply)
      modifies this`entries
      ensures !Granted(old(Snapshot()), req, true, now) ==>
                reply == Http.Unauthorized && Snapshot() == AfterAuth(old(Snapshot()), req, now)
      ensures Granted(old(Snapshot()), req, true, now) && payload.Malformed? ==>
                reply == Http.BadRequest(payload.message) && Snapshot() == AfterAuth(old(Snapshot()), req, now)
      ensures Granted(old(Snapshot()), req, true, now) && payload.Parsed? ==>
                if Http.TruthyText(payload.body.email) && payload.body.token.Some? then
                  && reply == Http.TokenSaved
                  && Snapshot() == KeyValue.Put(AfterAuth(old(Snapshot()), req, now),
                                                KeyValue.TokenKey(payload.body.email.value),
                                                KeyValue.TokenDoc(payload.body.token.value))
                else
                  reply == Http.BadRequest("Missing email or token") && Snapshot() == AfterAuth(old(Snapshot()), req, now)
    {
      var ok := CheckAuth(req, true, now);
      if !ok {
        return Http.Unauthorized;
      }
      match payload {
        case Malformed(message) =>
          reply := Http.BadRequest(message);
        case Parsed(body) =>
          if Http.TruthyText(body.email) && body.token.Some? {
            var written := SetData(KeyValue.TokenKey(body.email.value), KeyValue.TokenDoc(body.token.value));
            reply := Http.TokenSaved;
          } else {
            reply := Http.BadRequest("Missing email or token");
          }
      }
    }

    /** `/gmail/status`: each account mapped to whether its key holds a
        readable document. */
    method GmailStatus(req: Auth.Request, now: int) returns (reply: Http.Reply)
      modifies this`entries
      ensures Snapshot() == AfterAuth(old(Snapshot()), req, now)
      ensures !Granted(old(Snapshot()), req, false, now) ==> reply == Http.Unauthorized
      ensures Granted(old(Snapshot()), req, false, now) ==>
                && reply.Status?
                && reply.authenticated.Keys == (set a | a in accounts && a != "")
                && forall a :: a in reply.authenticated ==>
                     reply.authenticated[a] == KeyValue.Get(old(Snapshot()), KeyValue.TokenKey(a)).Some?
    {
      var ok := CheckAuth(req, false, now);
      if !ok {
        return Http.Unauthorized;
      }
      var s := Snapshot();
      var status := Aggregate.AccountStatus(accounts, (a: string) => KeyValue.Get(s, KeyValue.TokenKey(a)).Some?);
      reply := Http.Status(status);
    }
  }
}
