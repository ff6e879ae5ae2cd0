/** The per-request authorisation decision shared by both deployments: a
    device token from the query or a Bearer header, and optionally the
    pre-shared API key. */
module Auth {
  import opened Wrappers
  import Text
  import Sessions

  /** The parts of an HTTP request the decision reads: the decoded query
      parameters and the request headers under their canonical names. The
      file-backed server decodes its query with `ParseQs`, which drops blank
      values; the serverless deployment reads Flask's arguments, `QueryArgs`,
      which keep them. */
  datatype Request = Request(query: map<string, string>, headers: map<string, string>)

  /** A query parameter or header, `None` when absent. */
  function Lookup(m: map<string, string>, name: string): (r: Option<string>)
    ensures r.None? <==> name !in m
    ensures r.Some? ==> m[name] == r.value
  {
    if name in m then Some(m[name]) else None
  }

  /** `parse_qs(query)` read with `params.get(name, [default])[0]`: blank
      values are dropped, so a name maps to its first non-blank value and a
      name with only blank values is absent. */
  function ParseQs(pairs: seq<(string, string)>): (m: map<string, string>)
    ensures forall k :: k in m ==> m[k] != ""
  {
    if |pairs| == 0 then map[]
    else
      var rest := ParseQs(pairs[1..]);
      if pairs[0].1 == "" then rest else rest[pairs[0].0 := pairs[0].1]
  }

  /** The first non-blank value of a name is the one `ParseQs` keeps. */
  lemma {:induction false} ParseQsFirstNonBlank(pairs: seq<(string, string)>, i: nat)
    requires i < |pairs| && pairs[i].1 != ""
    requires forall j :: 0 <= j < i && pairs[j].0 == pairs[i].0 ==> pairs[j].1 == ""
    ensures pairs[i].0 in ParseQs(pairs) && ParseQs(pairs)[pairs[i].0] == pairs[i].1
  {
    if i > 0 {
      ParseQsFirstNonBlank(pairs[1..], i - 1);
    }
  }

  /** A name whose values are all blank, or that does not occur, is absent. */
  lemma {:induction false} ParseQsBlankAbsent(pairs: seq<(string, string)>, name: string)
    requires forall j :: 0 <= j < |pairs| && pairs[j].0 == name ==> pairs[j].1 == ""
    ensures name !in ParseQs(pairs)
  {
    if |pairs| > 0 {
      ParseQsBlankAbsent(pairs[1..], name);
    }
  }

  /** Flask's `request.args.get(name)`: the first value of a name, blank or
      not. */
  function QueryArgs(pairs: seq<(string, string)>): (m: map<string, string>)
    ensures forall k :: k in m <==> exists j :: 0 <= j < |pairs| && pairs[j].0 == k
  {
    if |pairs| == 0 then map[]
    else
      var rest := QueryArgs(pairs[1..]);
      assert forall k :: k in rest <==> exists j :: 0 <= j < |pairs| - 1 && pairs[1..][j].0 == k;
      rest[pairs[0].0 := pairs[0].1]
  }

  /** The first occurrence of a name gives its value, even when blank. */
  lemma {:induction false} QueryArgsFirst(pairs: seq<(string, string)>, i: nat)
    requires i < |pairs|
    requires forall j :: 0 <= j < i ==> pairs[j].0 != pairs[i].0
    ensures QueryArgs(pairs)[pairs[i].0] == pairs[i].1
  {
    if i > 0 {
      QueryArgsFirst(pairs[1..], i - 1);
    }
  }

  /** `?n=&n=x`: the file-backed server reads `x`, Flask reads `""`. */
  lemma BlankThenValue(name: string, x: string)
    requires x != ""
    ensures name in ParseQs([(name, ""), (name, x)]) && ParseQs([(name, ""), (name, x)])[name] == x
    ensures QueryArgs([(name, ""), (name, x)])[name] == ""
  {
    ParseQsFirstNonBlank([(name, ""), (name, x)], 1);
    QueryArgsFirst([(name, ""), (name, x)], 0);
  }

  /** The authentication scheme prefix of section 2.1 of RFC 6750, matched
      case-sensitively. */
  const BearerPrefix: string := "Bearer "

  /** The device token a request carries, `""` when it carries none: a
      non-empty `token` query parameter wins; only without one is an
      `Authorization` header starting with exactly `"Bearer "` consulted. */
  function RequestToken(req: Request): (t: string)
    ensures Lookup(req.query, "token").Some? && req.query["token"] != "" ==> t == req.query["token"]
    ensures t != "" ==>
              Lookup(req.query, "token") == Some(t) || Lookup(req.headers, "Authorization") == Some(BearerPrefix + t)
  {
    var q := if "token" in req.query then req.query["token"] else "";
    if q != "" then q
    else
      var auth := if "Authorization" in req.headers then req.headers["Authorization"] else "";
      if Text.HasPrefix(auth, BearerPrefix) then
        assert auth == BearerPrefix + auth[|BearerPrefix|..];
        auth[|BearerPrefix|..]
      else ""
  }

  /** Without a usable query token, `Authorization: Bearer <t>` yields `t`. */
  lemma BearerHeaderToken(req: Request, t: string)
    requires "token" !in req.query || req.query["token"] == ""
    requires Lookup(req.headers, "Authorization") == Some(BearerPrefix + t)
    ensures RequestToken(req) == t
  {
    assert Text.HasPrefix(BearerPrefix + t, BearerPrefix);
    assert (BearerPrefix + t)[|BearerPrefix|..] == t;
  }

  /** The scheme is matched case-sensitively: a lower-case `bearer` header
      carries no token. */
  lemma LowerCaseBearerIgnored(t: string)
    ensures RequestToken(Request(map[], map["Authorization" := "bearer " + t])) == ""
  {
    var auth := "bearer " + t;
    assert auth[0] == 'b' && BearerPrefix[0] == 'B';
    assert !Text.HasPrefix(auth, BearerPrefix);
  }

  /** The pre-shared key matches: the key is configured (non-empty) and the
      `key` query parameter or the `X-API-Key` header equals it exactly. */
  predicate KeyMatches(req: Request, apiKey: string) {
    && apiKey != ""
    && (Lookup(req.query, "key") == Some(apiKey) || Lookup(req.headers, "X-API-Key") == Some(apiKey))
  }

  /** The decision once the device token has been validated (or not). */
  function Decide(tokenValid: bool, req: Request, apiKey: string, allowApiKey: bool): (r: bool)
    ensures tokenValid ==> r
    ensures !allowApiKey ==> (r <==> tokenValid)
    ensures apiKey == "" ==> (r <==> tokenValid)
    ensures r && !tokenValid ==> allowApiKey && KeyMatches(req, apiKey)
  {
    tokenValid || (allowApiKey && KeyMatches(req, apiKey))
  }

  /** `_check_auth` / `check_auth` against a device list at time `now`. */
  function Authorized(devices: seq<Sessions.Device>, hash: string -> string, apiKey: string,
                      req: Request, allowApiKey: bool, now: int): bool
  {
    var token := RequestToken(req);
    Decide(Sessions.Validation(devices, hash, token, now).device.Some?, req, apiKey, allowApiKey)
  }

  /** A non-empty query token shadows the `Authorization` header entirely,
      so an invalid query token hides a valid Bearer header. */
  lemma QueryTokenShadowsHeader(devices: seq<Sessions.Device>, hash: string -> string, apiKey: string,
                                req: Request, allowApiKey: bool, now: int, header: string)
    requires "token" in req.query && req.query["token"] != ""
    ensures var other := req.(headers := req.headers["Authorization" := header]);
            RequestToken(other) == RequestToken(req)
            && Sessions.Validation(devices, hash, RequestToken(other), now)
               == Sessions.Validation(devices, hash, RequestToken(req), now)
  {
  }

  /** Without the API-key fallback, access is granted exactly when the
      request's device token validates. */
  lemma DeviceOnly(devices: seq<Sessions.Device>, hash: string -> string, apiKey: string, req: Request, now: int)
    ensures Authorized(devices, hash, apiKey, req, false, now)
        <==> Sessions.Validation(devices, hash, RequestToken(req), now).device.Some?
  {
  }
}
