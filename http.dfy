/** What both deployments read from a request body and send back. Headers,
    CORS and HTML rendering are outside the model: a reply is the JSON
    content it carries. */
module Http {
  import opened Wrappers
  import Sessions
  import Sync
  import Credentials
  import Aggregate
  import Text
  import Auth

  /** The keys of a POST body that the handlers read, each absent or
      present. */
  datatype Body = Body(
    tasks: Option<seq<Sync.Task>>,
    notes: Option<seq<Sync.Note>>,
    files: Option<map<string, string>>,
    syncedAt: Option<Sync.Stamp>,
    content: Option<string>,
    email: Option<string>,
    token: Option<Credentials.Credential>)

  /** A request body: a JSON object, or text the decoder rejects with a
      message. */
  datatype Payload = Parsed(body: Body) | Malformed(message: string)

  /** The Python truth value of an optional string. */
  predicate TruthyText(v: Option<string>) {
    v.Some? && v.value != ""
  }

  datatype Reply =
    | Unauthorized
    | BadRequest(error: string)
    | NotFound
    | Healthy(taskCount: nat, noteCount: nat, accountCount: nat, deviceCount: nat)
    | AuthInfo(device: Option<Sessions.Device>)
    | Count(count: nat)
    | FileNames(names: set<string>)
    | FileSaved(file: string, updatedAt: Sync.Stamp)
    | TokenSaved
    | TaskList(tasks: seq<Sync.Task>, syncedAt: Sync.Stamp)
    | NoteList(notes: seq<Sync.Note>, syncedAt: Sync.Stamp)
    | Files(files: map<string, string>, syncedAt: Sync.Stamp)
    | FileText(file: string, content: string, syncedAt: Sync.Stamp)
    | FileMissing(file: string, available: set<string>)
    | Emails(emails: seq<Aggregate.EmailRecord>)
    | Events(events: seq<Aggregate.EventRecord>)
    | Status(authenticated: map<string, bool>)
    | Briefing(tasks: seq<Sync.Task>, emails: seq<Aggregate.EmailRecord>, claudeMd: string)
    | Redirect
    | LoginFailed(reason: string)
    | AccessDenied(email: string)
    | LoginError(message: string)
    | ServicesConnected(email: string)
    | LoggedIn(name: string, token: string)

  /** The HTTP status code of a reply. */
  function StatusCode(r: Reply): (code: int)
    ensures code == 401 <==> r.Unauthorized?
    ensures code == 400 <==> r.BadRequest? || r.LoginFailed?
    ensures code == 404 <==> r.NotFound? || r.FileMissing?
    ensures code == 403 <==> r.AccessDenied?
    ensures code == 500 <==> r.LoginError?
    ensures code == 302 <==> r.Redirect?
    ensures code in {200, 302, 400, 401, 403, 404, 500}
  {
    match r
    case Unauthorized => 401
    case BadRequest(_) => 400
    case LoginFailed(_) => 400
    case NotFound => 404
    case FileMissing(_, _) => 404
    case AccessDenied(_) => 403
    case LoginError(_) => 500
    case Redirect => 302
    case _ => 200
  }

  // ---------------------------------------------------------------------------
  // The sign-in callback
  // ---------------------------------------------------------------------------

  /** What the code exchange and the ID-token check of `/callback` yield:
      the verified address (`""` when the token carries none), the display
      name and the credential the exchange returned. */
  datatype SignIn = SignIn(email: string, name: string, cred: Credentials.Credential)

  /** What `/callback` does once its checks are decided: answer with a page
      and change nothing, connect the account's Google services, or issue a
      device token. */
  datatype SignInStep =
    | Refused(reply: Reply)
    | Connect(email: string, cred: Credentials.Credential)
    | Issue(email: string, name: string, deviceName: string)

  /** The `state` prefix that marks the consent flow for Google services. */
  const ServicesState: string := "services_"

  /** The 400 text for a callback without a code, which differs between
      the two deployments. */
  function MissingCode(fileServer: bool): string {
    if fileServer then "No authorization code received" else "No authorization code"
  }

  /** The device name of a browser sign-in that names none. */
  const DefaultDeviceName: string := "Web Browser"

  /** `/callback`: an `error` parameter or a missing `code` gives a 400
      page; a failing exchange gives a 500 page with the exception text; an
      address outside the configured accounts gives a 403 page. Otherwise
      the file-backed server connects the services when `state` marks the
      consent flow, and both deployments otherwise issue a device token;
      only the file-backed server reads the `device` parameter, from a
      query decoded by `Auth.ParseQs`, so a blank `device` counts as
      absent. */
  function CallbackStep(query: map<string, string>, accounts: seq<string>, exchange: Remote<SignIn>,
                        fileServer: bool): (r: SignInStep)
    ensures TruthyText(Auth.Lookup(query, "error")) ==> r == Refused(LoginFailed(query["error"]))
    ensures !TruthyText(Auth.Lookup(query, "error")) && !TruthyText(Auth.Lookup(query, "code")) ==>
              r == Refused(LoginFailed(MissingCode(fileServer)))
    ensures !r.Refused? ==>
              && TruthyText(Auth.Lookup(query, "code")) && !TruthyText(Auth.Lookup(query, "error"))
              && exchange.Answer? && r.email == exchange.value.email && r.email in accounts
    ensures r.Connect? ==> fileServer && Text.HasPrefix(Auth.Lookup(query, "state").GetOr(""), ServicesState)
                           && r.cred == exchange.value.cred
    ensures r.Issue? ==> r.name == exchange.value.name
                         && (!fileServer ==> r.deviceName == DefaultDeviceName)
    ensures r.Refused? ==> StatusCode(r.reply) in {400, 403, 500}
  {
    var error := Auth.Lookup(query, "error");
    if TruthyText(error) then Refused(LoginFailed(error.value))
    else if !TruthyText(Auth.Lookup(query, "code")) then Refused(LoginFailed(MissingCode(fileServer)))
    else match exchange
      case Raises(message) => Refused(LoginError(message))
      case Answer(info) =>
        if info.email !in accounts then Refused(AccessDenied(info.email))
        else if fileServer && Text.HasPrefix(Auth.Lookup(query, "state").GetOr(""), ServicesState) then
          Connect(info.email, info.cred)
        else
          Issue(info.email, info.name,
                if fileServer then Auth.Lookup(query, "device").GetOr(DefaultDeviceName) else DefaultDeviceName)
  }

  /** On the file-backed server, `/callback?code=<c>&device=` names the
      device "Web Browser": `parse_qs` drops the blank `device`. */
  lemma CallbackBlankDevice(code: string, accounts: seq<string>, info: SignIn)
    requires code != "" && info.email in accounts
    ensures CallbackStep(Auth.ParseQs([("code", code), ("device", "")]), accounts, Answer(info), true)
            == Issue(info.email, info.name, DefaultDeviceName)
  {
    var pairs := [("code", code), ("device", "")];
    Auth.ParseQsFirstNonBlank(pairs, 0);
    Auth.ParseQsBlankAbsent(pairs, "error");
    Auth.ParseQsBlankAbsent(pairs, "state");
    Auth.ParseQsBlankAbsent(pairs, "device");
  }

  /** `/callback?code=<c>&device=&device=<x>` names the device `x`, the
      first non-blank value. */
  lemma CallbackDeviceAfterBlank(code: string, x: string, accounts: seq<string>, info: SignIn)
    requires code != "" && x != "" && info.email in accounts
    ensures CallbackStep(Auth.ParseQs([("code", code), ("device", ""), ("device", x)]), accounts, Answer(info), true)
            == Issue(info.email, info.name, x)
  {
    var pairs := [("code", code), ("device", ""), ("device", x)];
    Auth.ParseQsFirstNonBlank(pairs, 0);
    Auth.ParseQsFirstNonBlank(pairs, 2);
    Auth.ParseQsBlankAbsent(pairs, "error");
    Auth.ParseQsBlankAbsent(pairs, "state");
  }

  /** The token a sign-in issues opens the protected routes until the
      device expires, provided no earlier device carries its hash. */
  lemma SignInThenAuthorized(devices: seq<Sessions.Device>, hash: string -> string, apiKey: string,
                             secret: string, email: string, deviceName: string, created: int, now: int)
    requires secret != ""
    requires forall j :: 0 <= j < |devices| ==> devices[j].tokenHash != hash(secret)
    requires now <= created + Sessions.DeviceLifetime
    ensures Auth.Authorized(devices + [Sessions.NewDevice(hash, secret, email, deviceName, created)], hash, apiKey,
                            Auth.Request(map["token" := secret], map[]), false, now)
  {
    var req := Auth.Request(map["token" := secret], map[]);
    assert Auth.RequestToken(req) == secret;
    Sessions.CreateThenValidate(devices, hash, secret, email, deviceName, created, now);
    Auth.DeviceOnly(devices + [Sessions.NewDevice(hash, secret, email, deviceName, created)], hash, apiKey, req, now);
  }
}
