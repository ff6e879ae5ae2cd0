/** Google credentials, their token files and the per-account service memo
    of the file-backed server. The credential is abstract: the client
    library's `valid`, `expired` and refresh-token flags, and the access
    token it carries. Refreshing is a parameter that answers or raises. */
module Credentials {
  import opened Wrappers
  import Text

  datatype Credential = Credential(valid: bool, expired: bool, hasRefresh: bool, access: string)

  datatype ServiceKind = Gmail | Calendar

  /** A client handle built from a credential. */
  datatype Service = Service(kind: ServiceKind, cred: Credential)

  /** The memo is one dictionary per kind, keyed by account. */
  datatype ServiceKey = ServiceKey(kind: ServiceKind, account: string)

  /** The token files (by name, inside the data directory) and the memo. */
  datatype Cache = Cache(services: map<ServiceKey, Service>, tokenFiles: map<string, Credential>)

  /** The outcome of looking up a service: the handle, if any, and the cache
      afterwards. */
  datatype Acquired = Acquired(service: Option<Service>, cache: Cache)

  // ---------------------------------------------------------------------------
  // Token file names
  // ---------------------------------------------------------------------------

  /** The account with `@` spelled `_at_` and every `.` turned into `_`. */
  function SafeEmail(email: string): (r: string)
    ensures '@' !in r && '.' !in r
  {
    Text.ReplaceChar(Text.ReplaceChar(email, '@', "_at_"), '.', "_")
  }

  /** The name of the file holding an account's credential. */
  function TokenFile(email: string): (r: string)
    ensures Text.HasPrefix(r, "gmail_token_") && Text.HasSuffix(r, ".json")
    ensures r == "gmail_token_" + SafeEmail(email) + ".json"
  {
    "gmail_token_" + SafeEmail(email) + ".json"
  }

  /** Two distinct accounts share one token file when they differ only by a
      `.` written as `_`. */
  lemma TokenFileCollision(u: string, v: string)
    ensures u + "." + v != u + "_" + v
    ensures TokenFile(u + "." + v) == TokenFile(u + "_" + v)
  {
    assert (u + "." + v)[|u|] != (u + "_" + v)[|u|];
    Text.ReplaceCharConcat(u + ".", v, '@', "_at_");
    Text.ReplaceCharConcat(u, ".", '@', "_at_");
    Text.ReplaceCharConcat(u + "_", v, '@', "_at_");
    Text.ReplaceCharConcat(u, "_", '@', "_at_");
    var a := Text.ReplaceChar(u, '@', "_at_");
    var b := Text.ReplaceChar(v, '@', "_at_");
    assert Text.ReplaceChar(".", '@', "_at_") == ".";
    assert Text.ReplaceChar("_", '@', "_at_") == "_";
    Text.ReplaceCharConcat(a + ".", b, '.', "_");
    Text.ReplaceCharConcat(a, ".", '.', "_");
    Text.ReplaceCharConcat(a + "_", b, '.', "_");
    Text.ReplaceCharConcat(a, "_", '.', "_");
    assert Text.ReplaceChar(".", '.', "_") == "_";
    assert Text.ReplaceChar("_", '.', "_") == "_";
  }

  // ---------------------------------------------------------------------------
  // Acquiring a service
  // ---------------------------------------------------------------------------

  /** An expired credential that carries a refresh token is refreshed first. */
  predicate NeedsRefresh(c: Credential) {
    c.expired && c.hasRefresh
  }

  /** Every memoised handle has the kind of its slot and was built from a
      valid credential. */
  ghost predicate MemoValid(services: map<ServiceKey, Service>) {
    forall k :: k in services ==> services[k].kind == k.kind && services[k].cred.valid
  }

  /** Build and memoise a handle when the credential is valid. */
  function Memoise(c: Cache, kind: ServiceKind, email: string, cred: Credential): (r: Acquired)
    ensures r.service.Some? <==> cred.valid
    ensures r.service.Some? ==> r.service.value == Service(kind, cred)
    ensures r.cache.tokenFiles == c.tokenFiles
  {
    if cred.valid then
      var s := Service(kind, cred);
      Acquired(Some(s), c.(services := c.services[ServiceKey(kind, email) := s]))
    else
      Acquired(None, c)
  }

  /** `get_gmail_service` / `get_calendar_service`: a memoised handle is
      returned as it is; otherwise the account's token file is loaded,
      refreshed and written back when expired with a refresh token (a
      refresh that raises is swallowed and gives no handle), and a handle is
      memoised only for a valid credential. */
  function Acquire(c: Cache, refresh: Credential -> Remote<Credential>, kind: ServiceKind, email: string)
    : (r: Acquired)
    ensures ServiceKey(kind, email) in c.services ==> r == Acquired(Some(c.services[ServiceKey(kind, email)]), c)
    ensures r.service.Some? ==> r.cache.services == c.services[ServiceKey(kind, email) := r.service.value]
    ensures r.service.None? ==> r.cache.services == c.services
    ensures r.service.Some? && ServiceKey(kind, email) !in c.services ==>
              r.service.value.kind == kind && r.service.value.cred.valid
    ensures ServiceKey(kind, email) !in c.services && TokenFile(email) !in c.tokenFiles ==>
              r == Acquired(None, c)
    ensures ServiceKey(kind, email) !in c.services && TokenFile(email) in c.tokenFiles
            && NeedsRefresh(c.tokenFiles[TokenFile(email)]) && refresh(c.tokenFiles[TokenFile(email)]).Raises? ==>
              r == Acquired(None, c)
    ensures ServiceKey(kind, email) !in c.services && TokenFile(email) in c.tokenFiles
            && !NeedsRefresh(c.tokenFiles[TokenFile(email)]) ==>
              var cred := c.tokenFiles[TokenFile(email)];
              r.service == (if cred.valid then Some(Service(kind, cred)) else None) && r.cache.tokenFiles == c.tokenFiles
    ensures ServiceKey(kind, email) !in c.services && TokenFile(email) in c.tokenFiles
            && NeedsRefresh(c.tokenFiles[TokenFile(email)]) && refresh(c.tokenFiles[TokenFile(email)]).Answer? ==>
              var renewed := refresh(c.tokenFiles[TokenFile(email)]).value;
              r.service == (if renewed.valid then Some(Service(kind, renewed)) else None)
    ensures r.cache.tokenFiles.Keys == c.tokenFiles.Keys
    ensures forall f :: f in c.tokenFiles && f != TokenFile(email) ==> r.cache.tokenFiles[f] == c.tokenFiles[f]
  {
    var key := ServiceKey(kind, email);
    var file := TokenFile(email);
    if key in c.services then
      Acquired(Some(c.services[key]), c)
    else if file !in c.tokenFiles then
      Acquired(None, c)
    else
      var cred := c.tokenFiles[file];
      if NeedsRefresh(cred) then
        match refresh(cred)
        case Raises(_) => Acquired(None, c)
        case Answer(renewed) => Memoise(Cache(c.services, c.tokenFiles[file := renewed]), kind, email, renewed)
      else
        Memoise(c, kind, email, cred)
  }

  /** Acquiring keeps the memo well formed. */
  lemma AcquireKeepsMemoValid(c: Cache, refresh: Credential -> Remote<Credential>, kind: ServiceKind, email: string)
    ensures MemoValid(c.services) ==> MemoValid(Acquire(c, refresh, kind, email).cache.services)
  {
  }

  /** A token file holding a valid credential that needs no refresh yields a
      handle built from exactly that credential, and nothing is written. */
  lemma AcquireFromFile(c: Cache, refresh: Credential -> Remote<Credential>, kind: ServiceKind, email: string)
    requires ServiceKey(kind, email) !in c.services
    requires TokenFile(email) in c.tokenFiles
    requires c.tokenFiles[TokenFile(email)].valid && !NeedsRefresh(c.tokenFiles[TokenFile(email)])
    ensures var r := Acquire(c, refresh, kind, email);
            && r.service == Some(Service(kind, c.tokenFiles[TokenFile(email)]))
            && r.cache.tokenFiles == c.tokenFiles
  {
  }

  /** A refresh that succeeds is persisted to the account's token file, even
      when the refreshed credential turns out not to be valid. */
  lemma AcquireRefreshPersists(c: Cache, refresh: Credential -> Remote<Credential>, kind: ServiceKind, email: string)
    requires ServiceKey(kind, email) !in c.services
    requires TokenFile(email) in c.tokenFiles
    requires NeedsRefresh(c.tokenFiles[TokenFile(email)])
    requires refresh(c.tokenFiles[TokenFile(email)]).Answer?
    ensures var renewed := refresh(c.tokenFiles[TokenFile(email)]).value;
            var r := Acquire(c, refresh, kind, email);
            && r.cache.tokenFiles == c.tokenFiles[TokenFile(email) := renewed]
            && r.service == (if renewed.valid then Some(Service(kind, renewed)) else None)
  {
  }

  /** Once a handle is memoised, asking again returns it without reloading. */
  lemma AcquireTwice(c: Cache, refresh: Credential -> Remote<Credential>, kind: ServiceKind, email: string)
    ensures var r := Acquire(c, refresh, kind, email);
            r.service.Some? ==> Acquire(r.cache, refresh, kind, email) == r
  {
  }

  // ---------------------------------------------------------------------------
  // Storing a new credential and evicting the memo
  // ---------------------------------------------------------------------------

  /** POST `/gmail/token`: write the token file and evict only the Gmail
      handle of that account. */
  function StoreGmailToken(c: Cache, email: string, cred: Credential): (r: Cache)
    ensures r.tokenFiles == c.tokenFiles[TokenFile(email) := cred]
    ensures ServiceKey(Gmail, email) !in r.services
    ensures forall k :: k != ServiceKey(Gmail, email) ==> (k in r.services <==> k in c.services)
    ensures forall k :: k in r.services ==> k in c.services && r.services[k] == c.services[k]
  {
    Cache(c.services - {ServiceKey(Gmail, email)}, c.tokenFiles[TokenFile(email) := cred])
  }

  /** The services callback: write the token file and evict both the Gmail
      and the Calendar handle of that account. */
  function StoreServicesToken(c: Cache, email: string, cred: Credential): (r: Cache)
    ensures r.tokenFiles == c.tokenFiles[TokenFile(email) := cred]
    ensures ServiceKey(Gmail, email) !in r.services && ServiceKey(Calendar, email) !in r.services
    ensures forall k: ServiceKey :: k.account != email ==> (k in r.services <==> k in c.services)
    ensures forall k :: k in r.services ==> k in c.services && r.services[k] == c.services[k]
  {
    Cache(c.services - {ServiceKey(Gmail, email), ServiceKey(Calendar, email)},
          c.tokenFiles[TokenFile(email) := cred])
  }

  lemma StoreKeepsMemoValid(c: Cache, email: string, cred: Credential)
    requires MemoValid(c.services)
    ensures MemoValid(StoreGmailToken(c, email, cred).services)
    ensures MemoValid(StoreServicesToken(c, email, cred).services)
  {
  }

  /** After `/gmail/token` the next Gmail lookup for that account uses the
      new credential. */
  lemma GmailTokenThenAcquire(c: Cache, refresh: Credential -> Remote<Credential>, email: string, cred: Credential)
    requires cred.valid && !NeedsRefresh(cred)
    ensures Acquire(StoreGmailToken(c, email, cred), refresh, Gmail, email).service == Some(Service(Gmail, cred))
  {
  }

  /** ... but a memoised Calendar handle of the same account survives it and
      is still the one returned. */
  lemma GmailTokenKeepsCalendar(c: Cache, refresh: Credential -> Remote<Credential>, email: string, cred: Credential)
    requires ServiceKey(Calendar, email) in c.services
    ensures Acquire(StoreGmailToken(c, email, cred), refresh, Calendar, email).service
         == Some(c.services[ServiceKey(Calendar, email)])
  {
  }

  /** After the services callback both lookups use the new credential. */
  lemma ServicesTokenThenAcquire(c: Cache, refresh: Credential -> Remote<Credential>, email: string,
                                 cred: Credential, kind: ServiceKind)
    requires cred.valid && !NeedsRefresh(cred)
    ensures Acquire(StoreServicesToken(c, email, cred), refresh, kind, email).service == Some(Service(kind, cred))
  {
  }
}
