/** The file-backed server: its module-level state (device list, the three
    synchronised collections, the token files and the service memo) as the
    fields of one object, and the request handlers as its methods. */
module FileServer {
  import opened Wrappers
  import Text
  import Seqs
  import Sessions
  import Auth
  import Sync
  import Credentials
  import Aggregate
  import Accounts
  import Http

  // ---------------------------------------------------------------------------
  // Routing
  // ---------------------------------------------------------------------------

  datatype Route =
    | Health | Login | ServicesLogin | Callback | AuthStatus
    | TasksAll | TasksOpen | TasksToday
    | NotesAll | NotesWerkbank | NotesProjects
    | ContextAll | ContextFile(name: string)
    | EmailsUnread | EmailsRecent | GmailStatus
    | CalendarToday | CalendarUpcoming | CalendarWeek
    | BriefingPage | GmailToken | Unknown
  {
    /** Routes answered before the authorisation check. */
    predicate IsPublic() {
      Health? || Login? || ServicesLogin? || Callback? || AuthStatus?
    }

    /** Routes that look up Google services and so may change the memo. */
    predicate Fetches() {
      EmailsUnread? || EmailsRecent? || CalendarToday? || CalendarUpcoming? || CalendarWeek? || BriefingPage?
    }

    /** Routes that accept a POST. */
    predicate Posts() {
      TasksAll? || NotesAll? || ContextAll? || ContextFile? || GmailToken?
    }
  }

  const ContextPrefix: string := "/context/"

  /** The route of a request path. A path under `/context/` names the file
      `path.replace("/context/", "")`. */
  function RouteOf(path: string): (r: Route)
    ensures r.ContextFile? ==> Text.HasPrefix(path, ContextPrefix) && r.name == Text.RemoveAll(path, ContextPrefix)
  {
    if path == "/health" then Health
    else if path == "/login" then Login
    else if path == "/auth/services" then ServicesLogin
    else if path == "/callback" then Callback
    else if path == "/auth/status" then AuthStatus
    else if path == "/tasks" then TasksAll
    else if path == "/tasks/open" then TasksOpen
    else if path == "/tasks/today" then TasksToday
    else if path == "/notes" then NotesAll
    else if path == "/notes/werkbank" then NotesWerkbank
    else if path == "/notes/projects" then NotesProjects
    else if path == "/context" then ContextAll
    else if Text.HasPrefix(path, ContextPrefix) then ContextFile(Text.RemoveAll(path, ContextPrefix))
    else if path == "/emails/unread" then EmailsUnread
    else if path == "/emails/recent" then EmailsRecent
    else if path == "/gmail/status" then GmailStatus
    else if path == "/calendar/today" then CalendarToday
    else if path == "/calendar/upcoming" then CalendarUpcoming
    else if path == "/calendar/week" then CalendarWeek
    else if path == "/briefing" then BriefingPage
    else if path == "/gmail/token" then GmailToken
    else Unknown
  }

  /** `/context/<f>` addresses file `f` when `f` does not itself contain
      `/context/`. */
  lemma ContextFileRoute(name: string)
    requires !Text.Occurs(name, ContextPrefix)
    ensures RouteOf(ContextPrefix + name) == ContextFile(name)
  {
    var path := ContextPrefix + name;
    assert |path| >= 9 && path[1] == 'c' && path[2] == 'o' && path[3] == 'n';
    assert Text.HasPrefix(path, ContextPrefix);
    Text.RemoveAllLeading(ContextPrefix, name);
    Text.RemoveAllAbsent(name, ContextPrefix);
  }

  // ---------------------------------------------------------------------------
  // Merging per-account results
  // ---------------------------------------------------------------------------

  /** The answers the Google APIs give each account for each listing. */
  datatype Fetched = Fetched(
    unread: string -> Remote<seq<Aggregate.RawMessage>>,
    recent: string -> Remote<seq<Aggregate.RawMessage>>,
    today: string -> Remote<seq<Aggregate.CalendarFeed>>,
    upcoming: string -> Remote<seq<Aggregate.CalendarFeed>>,
    week: string -> Remote<seq<Aggregate.CalendarFeed>>)

  /** The email entries of an account, given its service handle. */
  function MailSource(answers: string -> Remote<seq<Aggregate.RawMessage>>)
    : (string, Option<Credentials.Service>) -> seq<Aggregate.EmailRecord>
  {
    (a: string, s: Option<Credentials.Service>) => Aggregate.EmailRecords(a, s, answers(a))
  }

  /** The calendar entries of an account, given its service handle. */
  function CalendarSource(answers: string -> Remote<seq<Aggregate.CalendarFeed>>, detailed: bool)
    : (string, Option<Credentials.Service>) -> seq<Aggregate.EventRecord>
  {
    (a: string, s: Option<Credentials.Service>) => Aggregate.EventRecords(a, s, answers(a), detailed)
  }

  /** The merge loops: visit the non-empty accounts in order, look up each
      one's service (threading the cache) and concatenate their entries. */
  function Gathered<R>(c: Credentials.Cache, refresh: Credentials.Credential -> Remote<Credentials.Credential>,
                       kind: Credentials.ServiceKind, accounts: seq<string>,
                       source: (string, Option<Credentials.Service>) -> seq<R>)
    : (r: (seq<R>, Credentials.Cache))
    ensures Credentials.MemoValid(c.services) ==> Credentials.MemoValid(r.1.services)
    ensures r.1.tokenFiles.Keys == c.tokenFiles.Keys
    decreases |accounts|
  {
    if |accounts| == 0 then ([], c)
    else if accounts[0] == "" then Gathered(c, refresh, kind, accounts[1..], source)
    else
      var a := Credentials.Acquire(c, refresh, kind, accounts[0]);
      Credentials.AcquireKeepsMemoValid(c, refresh, kind, accounts[0]);
      var rest := Gathered(a.cache, refresh, kind, accounts[1..], source);
      (source(accounts[0], a.service) + rest.0, rest.1)
  }

  /** Empty entries of the account list are skipped. */
  lemma {:induction false} GatheredSkipsEmpty<R>(c: Credentials.Cache,
                                                 refresh: Credentials.Credential -> Remote<Credentials.Credential>,
                                                 kind: Credentials.ServiceKind, accounts: seq<string>,
                                                 source: (string, Option<Credentials.Service>) -> seq<R>)
    ensures Gathered(c, refresh, kind, accounts, source)
         == Gathered(c, refresh, kind, Seqs.Filter(accounts, (a: string) => a != ""), source)
    decreases |accounts|
  {
    if |accounts| > 0 {
      var p := (a: string) => a != "";
      assert accounts == [accounts[0]] + accounts[1..];
      Seqs.FilterCons(accounts[0], accounts[1..], p);
      var f := Seqs.Filter(accounts, p);
      if accounts[0] == "" {
        assert f == Seqs.Filter(accounts[1..], p);
        GatheredSkipsEmpty(c, refresh, kind, accounts[1..], source);
      } else {
        assert f[0] == accounts[0] && f[1..] == Seqs.Filter(accounts[1..], p);
        var a := Credentials.Acquire(c, refresh, kind, accounts[0]);
        GatheredSkipsEmpty(a.cache, refresh, kind, accounts[1..], source);
      }
    }
  }

  /** Every merged email entry belongs to a non-empty account of the list. */
  lemma {:induction false} MergedEmailAccounts(c: Credentials.Cache,
                                               refresh: Credentials.Credential -> Remote<Credentials.Credential>,
                                               accounts: seq<string>,
                                               answers: string -> Remote<seq<Aggregate.RawMessage>>)
    ensures forall e :: e in Gathered(c, refresh, Credentials.Gmail, accounts, MailSource(answers)).0 ==>
              e.account in accounts && e.account != ""
    decreases |accounts|
  {
    if |accounts| > 0 {
      var a := Credentials.Acquire(c, refresh, Credentials.Gmail, accounts[0]);
      MergedEmailAccounts(c, refresh, accounts[1..], answers);
      MergedEmailAccounts(a.cache, refresh, accounts[1..], answers);
      assert forall x :: x in accounts[1..] ==> x in accounts;
    }
  }

  /** The first `n` elements, or all of them when there are fewer
      (`s[:n]`). */
  function Take<T>(s: seq<T>, n: nat): (r: seq<T>)
    ensures |r| == if |s| <= n then |s| else n
    ensures r == s[..|r|]
  {
    if |s| <= n then s else s[..n]
  }

  // ---------------------------------------------------------------------------
  // The server
  // ---------------------------------------------------------------------------

  class Server {
    /** The token hash (SHA-256 in hex). */
    const hash: string -> string
    /** The pre-shared API key, `""` when not configured. */
    const apiKey: string
    /** The raw pieces of the comma-separated account setting. */
    const accounts: seq<string>
    /** Refreshing a Google credential. */
    const refresh: Credentials.Credential -> Remote<Credentials.Credential>

    var devices: seq<Sessions.Device>
    var tasks: Sync.Synced<seq<Sync.Task>>
    var notes: Sync.Synced<seq<Sync.Note>>
    var context: Sync.Synced<map<string, string>>
    /** The two service memos, one slot per kind and account. */
    var services: map<Credentials.ServiceKey, Credentials.Service>
    /** The token files in the data directory. */
    var tokenFiles: map<string, Credentials.Credential>

    ghost predicate Valid()
      reads this`services
    {
      Credentials.MemoValid(services)
    }

    function CacheState(): Credentials.Cache
      reads this`services, this`tokenFiles
    {
      Credentials.Cache(services, tokenFiles)
    }

    /** Start-up: the loaded files (or their empty defaults) and empty
        memos. */
    constructor (hash: string -> string, apiKey: string, accountSetting: string,
                 refresh: Credentials.Credential -> Remote<Credentials.Credential>,
                 devices: seq<Sessions.Device>, tasks: Sync.Synced<seq<Sync.Task>>,
                 notes: Sync.Synced<seq<Sync.Note>>, context: Sync.Synced<map<string, string>>,
                 tokenFiles: map<string, Credentials.Credential>)
      ensures this.hash == hash && this.apiKey == apiKey && this.refresh == refresh
      ensures this.accounts == Accounts.RawAccounts(accountSetting)
      ensures this.devices == devices && this.tasks == tasks && this.notes == notes && this.context == context
      ensures this.tokenFiles == tokenFiles && this.services == map[]
      ensures Valid()
    {
      this.hash := hash;
      this.apiKey := apiKey;
      this.accounts := Accounts.RawAccounts(accountSetting);
      this.refresh := refresh;
      this.devices := devices;
      this.tasks := tasks;
      this.notes := notes;
      this.context := context;
      this.tokenFiles := tokenFiles;
      this.services := map[];
    }

    // -------------------------------------------------------------------------
    // Sessions and authorisation
    // -------------------------------------------------------------------------

    /** `validate_device_token`: the device list afterwards and the device
        returned are those of the validation specification. */
    method ValidateDeviceToken(token: string, now: int) returns (device: Option<Sessions.Device>)
      modifies this`devices
      ensures Sessions.Validated(device, devices) == Sessions.Validation(old(devices), hash, token, now)
    {
      var updated;
      device, updated := Sessions.ValidateDevice(devices, hash, token, now);
      devices := updated;
    }

    /** `create_device`: append one record for the drawn secret and hand the
        secret back. */
    method CreateDevice(email: string, deviceName: string, secret: string, now: int) returns (issued: string)
      modifies this`devices
      ensures issued == secret
      ensures devices == old(devices) + [Sessions.NewDevice(hash, secret, email, deviceName, now)]
    {
      devices := devices + [Sessions.NewDevice(hash, secret, email, deviceName, now)];
      issued := secret;
    }

    /** `_check_auth`: the decision of the authorisation specification,
        with validation's write to the device list. */
    method CheckAuth(req: Auth.Request, allowApiKey: bool, now: int) returns (ok: bool)
      modifies this`devices
      ensures ok == Auth.Authorized(old(devices), hash, apiKey, req, allowApiKey, now)
      ensures devices == Sessions.Validation(old(devices), hash, Auth.RequestToken(req), now).devices
    {
      var token := Auth.RequestToken(req);
      if token != "" {
        var device := ValidateDeviceToken(token, now);
        if device.Some? {
          return true;
        }
      }
      if allowApiKey && apiKey != "" {
        if Auth.Lookup(req.query, "key") == Some(apiKey) {
          return true;
        }
        if Auth.Lookup(req.headers, "X-API-Key") == Some(apiKey) {
          return true;
        }
      }
      return false;
    }

    // -------------------------------------------------------------------------
    // Services
    // -------------------------------------------------------------------------

    /** `get_gmail_service` / `get_calendar_service`. */
    method GetService(kind: Credentials.ServiceKind, email: string) returns (svc: Option<Credentials.Service>)
      requires Valid()
      modifies this`services, this`tokenFiles
      ensures Valid()
      ensures Credentials.Acquired(svc, CacheState()) == Credentials.Acquire(old(CacheState()), refresh, kind, email)
      ensures svc.Some? ==> svc.value.kind == kind && svc.value.cred.valid
    {
      var key := Credentials.ServiceKey(kind, email);
      if key in services {
        return Some(services[key]);
      }
      var file := Credentials.TokenFile(email);
      if file !in tokenFiles {
        return None;
      }
      var cred := tokenFiles[file];
      if Credentials.NeedsRefresh(cred) {
        var outcome := refresh(cred);
        match outcome {
          case Raises(_) =>
            return None;
          case Answer(renewed) =>
            cred := renewed;
            tokenFiles := tokenFiles[file := cred];
        }
      }
      if cred.valid {
        var s := Credentials.Service(kind, cred);
        services := services[key := s];
        return Some(s);
      }
      return None;
    }

    /** The merge loop of the email and calendar routes. */
    method Gather<R>(kind: Credentials.ServiceKind, source: (string, Option<Credentials.Service>) -> seq<R>)
      returns (all: seq<R>)
      requires Valid()
      modifies this`services, this`tokenFiles
      ensures Valid()
      ensures (all, CacheState()) == Gathered(old(CacheState()), refresh, kind, accounts, source)
    {
      all := [];
      var i := 0;
      assert accounts[0..] == accounts;
      assert [] + Gathered(CacheState(), refresh, kind, accounts, source).0
          == Gathered(CacheState(), refresh, kind, accounts, source).0;
      while i < |accounts|
        invariant 0 <= i <= |accounts|
        invariant Valid()
        invariant var rest := Gathered(CacheState(), refresh, kind, accounts[i..], source);
                  (all + rest.0, rest.1) == Gathered(old(CacheState()), refresh, kind, accounts, source)
      {
        var email := accounts[i];
        ghost var before := CacheState();
        ghost var prior := all;
        assert accounts[i..][0] == email && accounts[i..][1..] == accounts[i + 1..];
        if email != "" {
          var svc := GetService(kind, email);
          all := all + source(email, svc);
          ghost var rest := Gathered(CacheState(), refresh, kind, accounts[i + 1..], source);
          assert Gathered(before, refresh, kind, accounts[i..], source) == (source(email, svc) + rest.0, rest.1);
          assert prior + (source(email, svc) + rest.0) == all + rest.0;
        }
        i := i + 1;
      }
      assert accounts[i..] == [];
      assert all + [] == all;
    }

    /** The services callback, once the code exchange has produced a
        credential for an allowed account: store it and evict both memo
        slots of the account. */
    method ConnectServices(email: string, cred: Credentials.Credential)
      requires Valid()
      modifies this`services, this`tokenFiles
      ensures Valid()
      ensures CacheState() == Credentials.StoreServicesToken(old(CacheState()), email, cred)
    {
      tokenFiles := tokenFiles[Credentials.TokenFile(email) := cred];
      services := services - {Credentials.ServiceKey(Credentials.Gmail, email), Credentials.ServiceKey(Credentials.Calendar, email)};
    }

    /** The reply and the new state of `/callback` for a decided step:
        a refusal changes nothing, a services connection stores the
        credential and evicts the account's handles, a sign-in appends one
        device for the drawn secret. */
    ghost predicate CallbackEffect(before: seq<Sessions.Device>, cache: Credentials.Cache, step: Http.SignInStep,
                                   secret: string, now: int, reply: Http.Reply)
      reads this
    {
      match step
      case Refused(page) =>
        reply == page && devices == before && CacheState() == cache
      case Connect(email, cred) =>
        && reply == Http.ServicesConnected(email) && devices == before
        && CacheState() == Credentials.StoreServicesToken(cache, email, cred)
      case Issue(email, name, deviceName) =>
        && reply == Http.LoggedIn(name, secret)
        && devices == before + [Sessions.NewDevice(hash, secret, email, deviceName, now)]
        && CacheState() == cache
    }

    /** `/callback`: the code exchange and the ID-token check are the
        `exchange` outcome, and `secret` is the drawn device token. */
    method Callback(query: map<string, string>, exchange: Remote<Http.SignIn>, secret: string, now: int)
      returns (reply: Http.Reply)
      requires Valid()
      modifies this`devices, this`services, this`tokenFiles
      ensures Valid()
      ensures CallbackEffect(old(devices), old(CacheState()), Http.CallbackStep(query, accounts, exchange, true),
                             secret, now, reply)
    {
      match Http.CallbackStep(query, accounts, exchange, true) {
        case Refused(page) =>
          reply := page;
        case Connect(email, cred) =>
          ConnectServices(email, cred);
          reply := Http.ServicesConnected(email);
        case Issue(email, name, deviceName) =>
          var token := CreateDevice(email, deviceName, secret, now);
          reply := Http.LoggedIn(name, token);
      }
    }

    // -------------------------------------------------------------------------
    // GET
    // -------------------------------------------------------------------------

    /** `do_GET`: the public routes, then the device-only check, then the
        protected views. */
    method DoGet(req: Auth.Request, path: string, now: int, fetched: Fetched,
                 exchange: Remote<Http.SignIn>, secret: string) returns (reply: Http.Reply)
      requires Valid()
      modifies this`devices, this`services, this`tokenFiles
      ensures Valid()
      ensures RouteOf(path) == Health ==>
                && reply == Http.Healthy(|tasks.content|, |notes.content|,
                                         |Seqs.Filter(accounts, (a: string) => a != "")|, |devices|)
                && devices == old(devices) && CacheState() == old(CacheState())
      ensures RouteOf(path) == AuthStatus ==>
                var v := Sessions.Validation(old(devices), hash, Auth.Lookup(req.query, "token").GetOr(""), now);
                reply == Http.AuthInfo(v.device) && devices == v.devices && CacheState() == old(CacheState())
      ensures RouteOf(path).Login? || RouteOf(path).ServicesLogin? ==>
                reply == Http.Redirect && devices == old(devices) && CacheState() == old(CacheState())
      ensures RouteOf(path).Callback? ==>
                CallbackEffect(old(devices), old(CacheState()), Http.CallbackStep(req.query, accounts, exchange, true),
                               secret, now, reply)
      ensures !RouteOf(path).IsPublic() ==>
                devices == Sessions.Validation(old(devices), hash, Auth.RequestToken(req), now).devices
      ensures !RouteOf(path).IsPublic() && !Auth.Authorized(old(devices), hash, apiKey, req, false, now) ==>
                reply == Http.Unauthorized && CacheState() == old(CacheState())
      ensures !RouteOf(path).IsPublic() && Auth.Authorized(old(devices), hash, apiKey, req, false, now) ==>
                if RouteOf(path).Fetches() then FetchReply(RouteOf(path), reply, old(CacheState()), now, fetched)
                else ViewReply(RouteOf(path), reply, now) && CacheState() == old(CacheState())
    {
      var route := RouteOf(path);
      if route == Health {
        var configured := Seqs.Filter(accounts, (a: string) => a != "");
        return Http.Healthy(|tasks.content|, |notes.content|, |configured|, |devices|);
      }
      if route.Login? || route.ServicesLogin? {
        return Http.Redirect;
      }
      if route.Callback? {
        reply := Callback(req.query, exchange, secret, now);
        return;
      }
      if route == AuthStatus {
        var token := Auth.Lookup(req.query, "token").GetOr("");
        var device := None;
        if token != "" {
          device := ValidateDeviceToken(token, now);
        }
        return Http.AuthInfo(device);
      }
      reply := ProtectedGet(route, req, now, fetched);
    }

    /** The protected GET routes: the device-only check, then the view or
        the fetch. */
    method ProtectedGet(route: Route, req: Auth.Request, now: int, fetched: Fetched) returns (reply: Http.Reply)
      requires Valid()
      modifies this`devices, this`services, this`tokenFiles
      ensures Valid()
      ensures devices == Sessions.Validation(old(devices), hash, Auth.RequestToken(req), now).devices
      ensures !Auth.Authorized(old(devices), hash, apiKey, req, false, now) ==>
                reply == Http.Unauthorized && CacheState() == old(CacheState())
      ensures Auth.Authorized(old(devices), hash, apiKey, req, false, now) ==>
                if route.Fetches() then FetchReply(route, reply, old(CacheState()), now, fetched)
                else ViewReply(route, reply, now) && CacheState() == old(CacheState())
    {
      var ok := CheckAuth(req, false, now);
      if !ok {
        return Http.Unauthorized;
      }
      if route.Fetches() {
        reply := FetchGet(route, now, fetched);
      } else {
        reply := ViewGet(route, now);
      }
    }

    /** The reply of a protected GET route that only reads the stored
        state. */
    ghost predicate ViewReply(route: Route, reply: Http.Reply, now: int)
      reads this
    {
      && (route == TasksAll ==> reply == Http.TaskList(tasks.content, tasks.syncedAt))
      && (route == TasksOpen ==> reply == Http.TaskList(Sync.OpenTasks(tasks.content), tasks.syncedAt))
      && (route == TasksToday ==> reply == Http.TaskList(Sync.TodayTasks(tasks.content, now), tasks.syncedAt))
      && (route == NotesAll ==> reply == Http.NoteList(notes.content, notes.syncedAt))
      && (route == NotesWerkbank ==>
            reply == Http.NoteList(Sync.NotesOfType(notes.content, Sync.WerkbankType), notes.syncedAt))
      && (route == NotesProjects ==>
            reply == Http.NoteList(Sync.NotesOfType(notes.content, Sync.ProjectType), notes.syncedAt))
      && (route == ContextAll ==> reply == Http.Files(context.content, context.syncedAt))
      && (route.ContextFile? && route.name in context.content ==>
            reply == Http.FileText(route.name, context.content[route.name], context.syncedAt))
      && (route.ContextFile? && route.name !in context.content ==>
            reply == Http.FileMissing(route.name, context.content.Keys))
      && (route == GmailStatus ==>
            && reply.Status?
            && reply.authenticated.Keys == (set a | a in accounts && a != "")
            && forall a :: a in reply.authenticated ==> reply.authenticated[a] == (Credentials.TokenFile(a) in tokenFiles))
      && (route.IsPublic() || route == GmailToken || route == Unknown ==> reply == Http.NotFound)
    }

    /** The reply of a protected GET route that fetches from Google, and the
        cache afterwards. */
    ghost predicate FetchReply(route: Route, reply: Http.Reply, before: Credentials.Cache, now: int, fetched: Fetched)
      reads this
    {
      && (route == EmailsUnread ==>
            var g := Gathered(before, refresh, Credentials.Gmail, accounts, MailSource(fetched.unread));
            reply == Http.Emails(Aggregate.SortEmails(g.0)) && CacheState() == g.1)
      && (route == EmailsRecent ==>
            var g := Gathered(before, refresh, Credentials.Gmail, accounts, MailSource(fetched.recent));
            reply == Http.Emails(Aggregate.SortEmails(g.0)) && CacheState() == g.1)
      && (route == CalendarToday ==>
            var g := Gathered(before, refresh, Credentials.Calendar, accounts, CalendarSource(fetched.today, false));
            reply == Http.Events(Aggregate.SortEvents(g.0)) && CacheState() == g.1)
      && (route == CalendarUpcoming ==>
            var g := Gathered(before, refresh, Credentials.Calendar, accounts, CalendarSource(fetched.upcoming, true));
            reply == Http.Events(Aggregate.SortEvents(g.0)) && CacheState() == g.1)
      && (route == CalendarWeek ==>
            var g := Gathered(before, refresh, Credentials.Calendar, accounts, CalendarSource(fetched.week, true));
            reply == Http.Events(Aggregate.SortEvents(g.0)) && CacheState() == g.1)
      && (route == BriefingPage ==>
            var g := Gathered(before, refresh, Credentials.Gmail, accounts, MailSource(fetched.unread));
            && CacheState() == g.1
            && reply == Http.Briefing(Take(Sync.TodayTasks(tasks.content, now), 10),
                                      Seqs.Filter(Take(Aggregate.SortEmails(g.0), 5),
                                                  (e: Aggregate.EmailRecord) => e.Email?),
                                      if "CLAUDE.md" in context.content then context.content["CLAUDE.md"] else ""))
    }

    /** The protected GET views over the stored state. */
    method ViewGet(route: Route, now: int) returns (reply: Http.Reply)
      requires !route.Fetches()
      ensures ViewReply(route, reply, now)
    {
      match route {
        case TasksAll =>
          reply := Http.TaskList(tasks.content, tasks.syncedAt);
        case TasksOpen =>
          reply := Http.TaskList(Sync.OpenTasks(tasks.content), tasks.syncedAt);
        case TasksToday =>
          reply := Http.TaskList(Sync.TodayTasks(tasks.content, now), tasks.syncedAt);
        case NotesAll =>
          reply := Http.NoteList(notes.content, notes.syncedAt);
        case NotesWerkbank =>
          reply := Http.NoteList(Sync.NotesOfType(notes.content, Sync.WerkbankType), notes.syncedAt);
        case NotesProjects =>
          reply := Http.NoteList(Sync.NotesOfType(notes.content, Sync.ProjectType), notes.syncedAt);
        case ContextAll =>
          reply := Http.Files(context.content, context.syncedAt);
        case ContextFile(name) =>
          if name in context.content {
            reply := Http.FileText(name, context.content[name], context.syncedAt);
          } else {
            reply := Http.FileMissing(name, context.content.Keys);
          }
        case GmailStatus =>
          var files := tokenFiles;
          var status := Aggregate.AccountStatus(accounts, (a: string) => Credentials.TokenFile(a) in files);
          reply := Http.Status(status);
        case _ =>
          reply := Http.NotFound;
      }
    }

    /** The protected GET routes that merge per-account results. */
    method FetchGet(route: Route, now: int, fetched: Fetched) returns (reply: Http.Reply)
      requires Valid()
      requires route.Fetches()
      modifies this`services, this`tokenFiles
      ensures Valid()
      ensures FetchReply(route, reply, old(CacheState()), now, fetched)
    {
      if route == EmailsUnread {
        var all := Gather(Credentials.Gmail, MailSource(fetched.unread));
        reply := Http.Emails(Aggregate.SortEmails(all));
      } else if route == EmailsRecent {
        var all := Gather(Credentials.Gmail, MailSource(fetched.recent));
        reply := Http.Emails(Aggregate.SortEmails(all));
      } else if route == CalendarToday {
        var all := Gather(Credentials.Calendar, CalendarSource(fetched.today, false));
        reply := Http.Events(Aggregate.SortEvents(all));
      } else if route == CalendarUpcoming {
        var all := Gather(Credentials.Calendar, CalendarSource(fetched.upcoming, true));
        reply := Http.Events(Aggregate.SortEvents(all));
      } else if route == CalendarWeek {
        var all := Gather(Credentials.Calendar, CalendarSource(fetched.week, true));
        reply := Http.Events(Aggregate.SortEvents(all));
      } else {
        var top := Take(Sync.TodayTasks(tasks.content, now), 10);
        var all := Gather(Credentials.Gmail, MailSource(fetched.unread));
        var shown := Seqs.Filter(Take(Aggregate.SortEmails(all), 5), (e: Aggregate.EmailRecord) => e.Email?);
        var claudeMd := if "CLAUDE.md" in context.content then context.content["CLAUDE.md"] else "";
        reply := Http.Briefing(top, shown, claudeMd);
      }
    }

    // -------------------------------------------------------------------------
    // POST
    // -------------------------------------------------------------------------

    /** The reply and the collection afterwards of POST `/tasks`, `/notes`
        or `/context`: invalid JSON gives 400 and no change, otherwise the
        route's collection is replaced by the body's and the reply reports
        it. */
    ghost predicate CollectionPosted(route: Route, payload: Http.Payload, now: int, tasks0: Sync.Synced<seq<Sync.Task>>,
                                     notes0: Sync.Synced<seq<Sync.Note>>, context0: Sync.Synced<map<string, string>>,
                                     reply: Http.Reply)
      reads this`tasks, this`notes, this`context
    {
      match payload
      case Malformed(_) =>
        reply == Http.BadRequest("Invalid JSON") && tasks == tasks0 && notes == notes0 && context == context0
      case Parsed(body) =>
        && (route == TasksAll ==>
              tasks == Sync.Replace(body.tasks, [], body.syncedAt, now) && reply == Http.Count(|tasks.content|))
        && (route == NotesAll ==>
              notes == Sync.Replace(body.notes, [], body.syncedAt, now) && reply == Http.Count(|notes.content|))
        && (route == ContextAll ==>
              context == Sync.Replace(body.files, map[], body.syncedAt, now) && reply == Http.FileNames(context.content.Keys))
    }

    /** The reply and the files afterwards of POST `/context/<name>`: the
        device-only check (401), the `.md` gate, invalid JSON and a missing
        `content` (each 400) leave the files alone; otherwise exactly that
        file is written. */
    ghost predicate FilePosted(devices0: seq<Sessions.Device>, context0: Sync.Synced<map<string, string>>,
                               req: Auth.Request, name: string, payload: Http.Payload, now: int, reply: Http.Reply)
      reads this`context
    {
      if !Auth.Authorized(devices0, hash, apiKey, req, false, now) then
        reply == Http.Unauthorized && context == context0
      else if !Text.HasSuffix(name, Sync.MarkdownSuffix) then
        reply == Http.BadRequest("Only .md files allowed") && context == context0
      else if payload.Malformed? then
        reply == Http.BadRequest("Invalid JSON") && context == context0
      else if payload.body.content.None? then
        reply == Http.BadRequest("Missing content") && context == context0
      else
        && context == Sync.UpdateFile(context0, name, payload.body.content.value, now)
        && reply == Http.FileSaved(name, Sync.At(now * 1000))
    }

    /** The reply and the cache afterwards of POST `/gmail/token`: a body
        that is not JSON gives 400 with the decoder's message, a body
        without both email and token gives 400; neither changes anything.
        Otherwise the token is stored and the Gmail handle evicted. */
    ghost predicate TokenPosted(cache0: Credentials.Cache, payload: Http.Payload, reply: Http.Reply)
      reads this`services, this`tokenFiles
    {
      match payload
      case Malformed(message) =>
        reply == Http.BadRequest(message) && CacheState() == cache0
      case Parsed(body) =>
        if Http.TruthyText(body.email) && body.token.Some? then
          CacheState() == Credentials.StoreGmailToken(cache0, body.email.value, body.token.value)
          && reply == Http.TokenSaved
        else
          reply == Http.BadRequest("Missing email or token") && CacheState() == cache0
    }

    /** POST `/tasks`: replace the whole collection. */
    method ReplaceTasks(payload: Http.Payload, now: int) returns (reply: Http.Reply)
      modifies this`tasks
      ensures payload.Malformed? ==> reply == Http.BadRequest("Invalid JSON") && tasks == old(tasks)
      ensures payload.Parsed? ==>
                && tasks == Sync.Replace(payload.body.tasks, [], payload.body.syncedAt, now)
                && reply == Http.Count(|tasks.content|)
    {
      match payload {
        case Malformed(_) =>
          reply := Http.BadRequest("Invalid JSON");
        case Parsed(body) =>
          tasks := Sync.Replace(body.tasks, [], body.syncedAt, now);
          reply := Http.Count(|tasks.content|);
      }
    }

    /** POST `/notes`: replace the whole collection. */
    method ReplaceNotes(payload: Http.Payload, now: int) returns (reply: Http.Reply)
      modifies this`notes
      ensures payload.Malformed? ==> reply == Http.BadRequest("Invalid JSON") && notes == old(notes)
      ensures payload.Parsed? ==>
                && notes == Sync.Replace(payload.body.notes, [], payload.body.syncedAt, now)
                && reply == Http.Count(|notes.content|)
    {
      match payload {
        case Malformed(_) =>
          reply := Http.BadRequest("Invalid JSON");
        case Parsed(body) =>
          notes := Sync.Replace(body.notes, [], body.syncedAt, now);
          reply := Http.Count(|notes.content|);
      }
    }

    /** POST `/context`: replace all files. */
    method ReplaceContext(payload: Http.Payload, now: int) returns (reply: Http.Reply)
      modifies this`context
      ensures payload.Malformed? ==> reply == Http.BadRequest("Invalid JSON") && context == old(context)
      ensures payload.Parsed? ==>
                && context == Sync.Replace(payload.body.files, map[], payload.body.syncedAt, now)
                && reply == Http.FileNames(context.content.Keys)
    {
      match payload {
        case Malformed(_) =>
          reply := Http.BadRequest("Invalid JSON");
        case Parsed(body) =>
          context := Sync.Replace(body.files, map[], body.syncedAt, now);
          reply := Http.FileNames(context.content.Keys);
      }
    }

    /** POST `/context/<f>`: a second, device-only check, then the `.md`
        gate, then the body, then the single-file update. */
    method UpdateContextFile(req: Auth.Request, name: string, payload: Http.Payload, now: int)
      returns (reply: Http.Reply)
      modifies this`devices, this`context
      ensures devices == Sessions.Validation(old(devices), hash, Auth.RequestToken(req), now).devices
      ensures FilePosted(old(devices), old(context), req, name, payload, now, reply)
    {
      var ok := CheckAuth(req, false, now);
      if !ok {
        return Http.Unauthorized;
      }
      if !Text.HasSuffix(name, Sync.MarkdownSuffix) {
        return Http.BadRequest("Only .md files allowed");
      }
      match payload {
        case Malformed(_) =>
          reply := Http.BadRequest("Invalid JSON");
        case Parsed(body) =>
          if body.content.None? {
            return Http.BadRequest("Missing content");
          }
          context := Sync.UpdateFile(context, name, body.content.value, now);
          reply := Http.FileSaved(name, context.syncedAt);
      }
    }

    /** POST `/gmail/token`: store the credential for the account and evict
        only its Gmail handle; both `email` and `token` must be present and
        non-empty. */
    method ReceiveGmailToken(payload: Http.Payload) returns (reply: Http.Reply)
      requires Valid()
      modifies this`services, this`tokenFiles
      ensures Valid()
      ensures TokenPosted(old(CacheState()), payload, reply)
    {
      match payload {
        case Malformed(message) =>
          reply := Http.BadRequest(message);
        case Parsed(body) =>
          if Http.TruthyText(body.email) && body.token.Some? {
            var email := body.email.value;
            tokenFiles := tokenFiles[Credentials.TokenFile(email) := body.token.value];
            services := services - {Credentials.ServiceKey(Credentials.Gmail, email)};
            reply := Http.TokenSaved;
          } else {
            reply := Http.BadRequest("Missing email or token");
          }
      }
    }

    /** `do_POST`: the check that also accepts the API key, then the
        route. */
    method DoPost(req: Auth.Request, path: string, payload: Http.Payload, now: int) returns (reply: Http.Reply)
      requires Valid()
      modifies this`devices, this`tasks, this`notes, this`context, this`services, this`tokenFiles
      ensures Valid()
      ensures devices == Sessions.Validation(old(devices), hash, Auth.RequestToken(req), now).devices
      ensures !Auth.Authorized(old(devices), hash, apiKey, req, true, now) ==>
                && reply == Http.Unauthorized
                && tasks == old(tasks) && notes == old(notes) && context == old(context)
                && CacheState() == old(CacheState())
      ensures RouteOf(path) != TasksAll ==> tasks == old(tasks)
      ensures RouteOf(path) != NotesAll ==> notes == old(notes)
      ensures !RouteOf(path).ContextAll? && !RouteOf(path).ContextFile? ==> context == old(context)
      ensures RouteOf(path) != GmailToken ==> CacheState() == old(CacheState())
      ensures Auth.Authorized(old(devices), hash, apiKey, req, true, now) ==>
                var route := RouteOf(path);
                && (route == TasksAll || route == NotesAll || route == ContextAll ==>
                      CollectionPosted(route, payload, now, old(tasks), old(notes), old(context), reply))
                && (route.ContextFile? ==>
                      FilePosted(old(devices), old(context), req, route.name, payload, now, reply))
                && (route == GmailToken ==> TokenPosted(old(CacheState()), payload, reply))
                && (!route.Posts() ==> reply == Http.NotFound)
    {
      var route := RouteOf(path);
      var ok := CheckAuth(req, true, now);
      if !ok {
        return Http.Unauthorized;
      }
      Sessions.ValidationIdempotent(old(devices), hash, Auth.RequestToken(req), now);
      reply := PostRoute(route, req, payload, now);
    }

    /** The POST routes, once the request has passed the first check. */
    method PostRoute(route: Route, req: Auth.Request, payload: Http.Payload, now: int) returns (reply: Http.Reply)
      requires Valid()
      modifies this`devices, this`tasks, this`notes, this`context, this`services, this`tokenFiles
      ensures Valid()
      ensures !route.ContextFile? ==> devices == old(devices)
      ensures route.ContextFile? ==>
                devices == Sessions.Validation(old(devices), hash, Auth.RequestToken(req), now).devices
      ensures route != TasksAll ==> tasks == old(tasks)
      ensures route != NotesAll ==> notes == old(notes)
      ensures !route.ContextAll? && !route.ContextFile? ==> context == old(context)
      ensures route != GmailToken ==> services == old(services) && tokenFiles == old(tokenFiles)
      ensures route == TasksAll || route == NotesAll || route == ContextAll ==>
                CollectionPosted(route, payload, now, old(tasks), old(notes), old(context), reply)
      ensures route.ContextFile? ==> FilePosted(old(devices), old(context), req, route.name, payload, now, reply)
      ensures route == GmailToken ==> TokenPosted(old(CacheState()), payload, reply)
      ensures !route.Posts() ==> reply == Http.NotFound
    {
      if route == GmailToken {
        reply := ReceiveGmailToken(payload);
      } else if route.ContextFile? {
        reply := UpdateContextFile(req, route.name, payload, now);
      } else {
        reply := ReplaceCollection(route, payload, now);
      }
    }

    /** The routes that replace a whole collection; any other route not
        handled before is not found. */
    method ReplaceCollection(route: Route, payload: Http.Payload, now: int) returns (reply: Http.Reply)
      requires route != GmailToken && !route.ContextFile?
      modifies this`tasks, this`notes, this`context
      ensures route != TasksAll ==> tasks == old(tasks)
      ensures route != NotesAll ==> notes == old(notes)
      ensures route != ContextAll ==> context == old(context)
      ensures route == TasksAll || route == NotesAll || route == ContextAll ==>
                CollectionPosted(route, payload, now, old(tasks), old(notes), old(context), reply)
      ensures !route.Posts() ==> reply == Http.NotFound
    {
      if route == TasksAll {
        reply := ReplaceTasks(payload, now);
      } else if route == NotesAll {
        reply := ReplaceNotes(payload, now);
      } else if route == ContextAll {
        reply := ReplaceContext(payload, now);
      } else {
        reply := Http.NotFound;
      }
    }
  }
}
