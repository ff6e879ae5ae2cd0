# Chief of Staff server — a Dafny model

Chief of Staff is a small personal back end deployed in two ways:

- a file-backed HTTP server (`server.py`) that keeps its state in module globals and JSON files;
- a serverless Flask application (`api/index.py`) that keeps the same state in a Redis key/value store.

Both serve the same four pieces of logic, and this project models them:

- **Device-token sessions.** A sign-in issues a random secret. Only its hash is stored, with a 90-day expiry. Each request presents the secret, and validation walks the device list in order, stamping `last_used` on the first match.
- **The authorisation decision.**
  - A device token comes from the `token` query parameter, or else from an `Authorization: Bearer` header.
  - A token that validates always grants access.
  - The pre-shared API key grants access only on the routes that permit it.
  - The file-backed server decodes its query with `parse_qs`, which drops blank values (`Auth.ParseQs`). The serverless deployment reads Flask's arguments, which keep them (`Auth.QueryArgs`). A request's `query` map is the result of the deployment's own decoding.
- **The synchronisation store.**
  - POST replaces a whole collection (tasks, notes, context files).
  - GET serves the collection or an order-preserving view of it: open tasks, today's tasks sorted by score, and notes of one type.
  - The server also updates a single `.md` context file.
- **Multi-account aggregation.**
  - Each configured Google account contributes its emails or calendar events, or exactly one error record.
  - The lists are concatenated and stably sorted by a string key.
  - The file server memoises one client handle per account and kind, and evicts it when a new token arrives.

Modules:

| module | file | content |
|---|---|---|
| `Wrappers` | wrappers.dfy | `Option` and `Remote` (an external call that answers or raises) |
| `Text` | text.dfy | the Python string operations the code relies on: prefix/suffix, `replace`, `split`/`join`, `strip`, `<` on `str` |
| `Seqs` | seqs.dfy | order-preserving filters and a stable sort, specified by stability and proved unique |
| `Sessions` | sessions.dfy | devices, `create_device`, `validate_device_token` |
| `Auth` | auth.dfy | token extraction and the `check_auth` decision |
| `Sync` | sync.dfy | collection replacement, the single-file update and the views |
| `Credentials` | credentials.dfy | token files, credential refresh and the service memo of the file server |
| `Aggregate` | aggregate.dfy | email and event records, the per-account error record, the merges and their sort order, `/gmail/status` |
| `Accounts` | accounts.dfy | the two parsings of `GMAIL_ACCOUNTS` |
| `Http` | http.dfy | request bodies and replies (the JSON content, not the transport) |
| `FileServer` | server.dfy | class `Server`: the globals of `server.py` as fields, `do_GET`/`do_POST` and their helpers as methods |
| `KeyValue` | kv.dfy | `get_data`/`set_data` over a map, and the typed reads with their defaults |
| `Serverless` | api.dfy | class `Api`: the routes of `api/index.py` over the store |

The model makes these choices:

- **Hash, refresh and secrets.** The token hash and Google's credential refresh are uninterpreted function parameters. The random secret is a method argument.
- **Time.** Time is integer seconds, and a default `syncedAt` is `now * 1000`.
- **Google API results.** Each account's answer to a listing is an input that either answers or raises.
- **Records.** Task and note records keep the fields the views read; every other field is an opaque map.

## Model

| member | source | states |
|---|---|---|
| Sessions.Validation | server.py:75-90 | an empty token, an unknown hash or an expired first match yield no device and an unchanged list; otherwise the first match is returned with `lastUsed = now`, its hash is the token's, and the list keeps its length |
| Sessions.ValidateDevice | server.py:80-89 | the loop over the devices stops at the first hash match and returns exactly the device and list of `Validation` |
| Sessions.IndexOfHash | server.py:80-81 | the index found is the first device with the given hash; none means no device has it |
| Sessions.NewDevice | server.py:92-105 | the appended record stores `hash(token)`, the email and the device name, and expires 90 days after creation |
| Sessions.ValidationFirstMatch | server.py:80-89 | when device `i` is the first with the token's hash, validation succeeds iff the token is non-empty and device `i` has not expired, and then only device `i` changes |
| Sessions.ValidationUnknown | server.py:75-90 | a token whose hash no device has is rejected with nothing changed |
| Sessions.ValidationIdempotent | server.py:75-90 | validating again at the same time gives the same verdict and the same list (used for the second check of POST `/context/<f>`) |
| Sessions.CreateThenValidate | server.py:92-105 | a freshly created token validates up to its expiry and is rejected afterwards, provided no earlier device has the same hash |
| Auth.Lookup | server.py:416-418 | a parameter is absent exactly when its name is not in the request |
| Auth.ParseQs | server.py:448 | the file server's query holds no blank value |
| Auth.ParseQsFirstNonBlank | server.py:448 | a name's first non-blank value is the one read |
| Auth.ParseQsBlankAbsent | server.py:448 | a name with only blank values, or none, is absent |
| Auth.QueryArgs | api/index.py:237 | Flask's arguments hold exactly the names that occur |
| Auth.QueryArgsFirst | api/index.py:237 | a name's first value is the one read, even when blank |
| Auth.BlankThenValue | api/index.py:237 | `?n=&n=x` reads `x` on the file server and `""` through Flask |
| Auth.RequestToken | server.py:418-422 | a non-empty query `token` wins; any token returned came from the query or from an `Authorization` header of the form `Bearer <t>` |
| Auth.BearerHeaderToken | server.py:419-422 | with no usable query token, `Authorization: Bearer t` yields `t` |
| Auth.LowerCaseBearerIgnored | server.py:421 | the scheme prefix is case-sensitive: a `bearer` header carries no token |
| Auth.Decide | server.py:423-433 | a valid token always grants; without `allow_api_key`, or with no key configured, the result is exactly token validity; otherwise only a matching `key` parameter or `X-API-Key` header grants |
| Auth.QueryTokenShadowsHeader | server.py:418-423 | with a non-empty query token the `Authorization` header plays no part, so an invalid query token hides a valid header |
| Auth.DeviceOnly | server.py:408-433 | without the API-key fallback, access is granted iff the request's device token validates |
| Sync.Replace | server.py:950-966 | a POST stores the payload's content, or the empty collection when absent, and the payload's `syncedAt`, or `now*1000` only when absent |
| Sync.ReplaceIdempotent | server.py:950-1004 | two identical POSTs carrying `syncedAt` leave the same state whenever they arrive |
| Sync.UpdateFile | server.py:1027-1031 | exactly the named file gets the new text, every other file is kept, and `syncedAt` becomes `now*1000` |
| Sync.OpenTasks | server.py:688-695 | the open view holds only tasks with falsy `completedAt` and `dismissedAt`, each as often as in the stored list |
| Sync.NotesOfType | server.py:716-731 | the typed view holds only notes of that `type`, each as often as in the stored list |
| Sync.OpenTasksConcat | server.py:688-695 | the open view preserves stored order: it distributes over concatenation |
| Sync.TodayTasksSpec | server.py:697-710 | the today view is a permutation of the due open tasks, in descending score (missing = 0), with equal scores in stored order |
| Sync.TodayKeepsSortedDue | server.py:697-710 | due open tasks already in descending score come back exactly as stored |
| Sync.TodayExample | server.py:697-710 | tasks scored 5, 5, 1 keep their order |
| Sync.HigherScoreOrder | server.py:703 | "higher score first" is a strict total order on scores |
| Seqs.Filter | server.py:689-690 | a list comprehension with a condition keeps exactly the matching elements, with their multiplicities |
| Seqs.FilterConcat | server.py:757-761 | filtering distributes over concatenation |
| Seqs.FilterFilter | server.py:698-702 | filtering twice is filtering once by the conjunction |
| Seqs.SortBySorted | server.py:703 | the sort result is ordered by the key |
| Seqs.SortByStablySorted | server.py:703 | the sort result is a permutation of its input, ordered by the key, with equal keys in input order (Python's `list.sort` is stable) |
| Seqs.StableSortUnique | server.py:703 | a stable sort has only one possible result |
| Seqs.SortConcatOfSorted | server.py:761 | stably sorting a concatenation of stably sorted parts equals sorting the raw concatenation |
| Credentials.SafeEmail | server.py:168-170 | the safe form contains no `@` and no `.` |
| Credentials.TokenFile | server.py:168-170 | the file name is `gmail_token_` + the safe form + `.json` |
| Credentials.TokenFileCollision | server.py:168-170 | two distinct accounts differing only in `.` versus `_` share one token file |
| Credentials.Memoise | server.py:191-193 | a handle is built and memoised iff the credential is valid; the token files are untouched |
| Credentials.Acquire | server.py:172-198 | a memoised handle is returned as is; no token file gives none; a token file needing no refresh gives a handle of exactly that credential iff it is valid, with nothing written; a refresh that raises gives none with nothing written; a successful refresh gives a handle of exactly the renewed credential iff it is valid; only a returned handle is memoised; other token files are unchanged |
| Credentials.AcquireKeepsMemoValid | server.py:191-193 | every memoised handle is of its slot's kind and built from a valid credential, before and after a lookup |
| Credentials.AcquireFromFile | server.py:183-193 | a valid, unexpired token file yields a handle built from exactly that credential and nothing is written |
| Credentials.AcquireRefreshPersists | server.py:186-194 | a successful refresh is written to the token file even when the renewed credential is not valid, and the handle is built from exactly the renewed credential iff it is valid |
| Credentials.AcquireTwice | server.py:176-177 | once a handle is memoised, asking again returns it without reloading |
| Credentials.StoreGmailToken | server.py:1052-1058 | the token file is written and only that account's Gmail handle is evicted |
| Credentials.StoreServicesToken | server.py:582-590 | the token file is written and both handles of that account, and only those, are evicted |
| Credentials.StoreKeepsMemoValid | server.py:1057-1058 | eviction keeps the memo well formed |
| Credentials.GmailTokenThenAcquire | server.py:1052-1058 | after POST `/gmail/token` the next Gmail lookup uses the new credential |
| Credentials.GmailTokenKeepsCalendar | server.py:1057-1058 | a memoised Calendar handle survives POST `/gmail/token` |
| Credentials.ServicesTokenThenAcquire | server.py:587-590 | after the services callback both lookups use the new credential |
| Aggregate.HeaderValue | server.py:225 | no value iff no header has the name; otherwise the value of the last header with that name (a later header wins) |
| Aggregate.BuildEmail | server.py:227-234 | an email entry has the message id and account, and defaults "(no subject)", "Unknown" and "" for missing headers |
| Aggregate.BuildEmails | server.py:219-235 | one entry per message, in the order listed |
| Aggregate.EmailRecords | server.py:200-240 | no service gives `Not authenticated: <account>`, a failing listing gives one record with the exception text, otherwise the built entries; every record carries the account |
| Aggregate.EmailRecordsShape | server.py:200-240 | an account contributes exactly one error record or only emails |
| Aggregate.LaterFirstOrder | server.py:761 | descending string order is a strict total order |
| Aggregate.SortEmailsSpec | server.py:761 | the merged emails are permuted into descending `date` order, with equal dates in merge order |
| Aggregate.EmailErrorsAfterDated | server.py:761 | an error record, whose key is `''`, sorts after every email with a non-empty date |
| Aggregate.TimeText | server.py:308-309 | `dateTime`, else `date`, else `''` |
| Aggregate.BuildEvent | server.py:303-324 | an event entry carries its account and calendar name, its start and end texts, the all-day flag iff only `date` is set, and the extra fields only in the upcoming listing |
| Aggregate.BuildEvents | server.py:303-324 | one entry per event, in the order listed |
| Aggregate.FeedEvents | server.py:289-321 | a calendar whose listing raises contributes nothing; an answering calendar contributes its events in listed order, named by its title or else its id |
| Aggregate.CalendarEvents | server.py:289-321 | every entry is an event of the account |
| Aggregate.CalendarEventsOne | server.py:289-321 | one calendar contributes exactly `FeedEvents` of it |
| Aggregate.CalendarEventsConcat | server.py:289-321 | the entries of several calendars are those of each in turn, so every answering calendar's events are kept in order and raising calendars are skipped |
| Aggregate.EventRecords | server.py:274-334 | no service gives `Not authenticated for calendar: <account>`, a failing calendar list gives one record with the exception text, otherwise the account's events sorted by start |
| Aggregate.EventRecordsShape | server.py:274-334 | an account contributes exactly one error record or only events |
| Aggregate.SortEvents | server.py:329 | sorting by start is a permutation |
| Aggregate.LexLessOrder | server.py:795 | ascending string order is a strict total order |
| Aggregate.SortEventsSpec | server.py:795 | the merged events are in ascending `start` order, with equal starts in merge order |
| Aggregate.EventErrorsBeforeTimed | server.py:795 | an error record sorts before every event with a non-empty start |
| Aggregate.SortEventsIdempotent | server.py:330 | sorting events by start twice is sorting them once |
| Aggregate.PresortIrrelevant | server.py:790-794 | for any number of accounts, sorting each account's events before the merge sort gives the same merged result as one stable sort of the unsorted lists |
| Aggregate.AccountStatus | server.py:780-787 | the status map has exactly the non-empty accounts as keys, each mapped to whether it has a stored credential |
| Accounts.RawAccounts | server.py:33 | the server keeps the raw comma-split pieces; joining them gives the setting back |
| Accounts.Entry | api/index.py:31 | one piece contributes at most one entry, which is non-empty, stripped and comma-free when the piece is |
| Accounts.StrippedNonEmpty | api/index.py:31 | the kept entries are no more than the pieces, non-empty, stripped and free of commas |
| Accounts.StrippedNonEmptyOne | api/index.py:31 | a single piece gives its strip, or nothing when the strip is empty |
| Accounts.StrippedNonEmptyConcat | api/index.py:31 | the entries of a concatenation are those of each part in order; with the single-piece case this fixes the result for every list |
| Accounts.ParsedAccounts | api/index.py:31 | the serverless accounts are stripped, non-empty and free of commas |
| Accounts.ParsedAccountsOfPieces | api/index.py:31 | for every setting written as comma-free pieces, the accounts are the non-empty strips of those pieces |
| Accounts.ParsedFromRaw | api/index.py:31 | the serverless accounts are the non-empty strips of the file server's raw pieces (`GMAIL_ACCOUNTS.split(",")`, server.py:33) |
| Accounts.ParsedAccountsPaddedAndBlank | api/index.py:31 | `" x , ,y"` parses to `[x, y]`: padding is dropped and a blank entry skipped |
| Accounts.PiecesPaddedAndBlank | api/index.py:31 | the pieces `" x "`, `" "`, `y` give the entries `x`, `y` |
| Accounts.StrippedNonEmptyKeeps | api/index.py:31 | clean pieces are kept as they are |
| Accounts.ParsedAccountsRoundTrip | api/index.py:31 | writing clean account names into the setting and parsing it gives them back |
| Accounts.SameAccountsWhenClean | api/index.py:31 | with no surrounding white space, the server's non-empty accounts and the serverless accounts are the same list |
| Text.RemoveAll | server.py:739 | `replace(pat, "")` never lengthens the string |
| Text.RemoveAllAbsent | server.py:739 | a name without `/context/` is kept as it is |
| Text.Split | server.py:33 | `split(",")` gives at least one piece, none containing the separator |
| Text.JoinSplit | server.py:33 | joining the split pieces gives back the string |
| Text.SplitJoin | api/index.py:31 | splitting a join of separator-free pieces gives back the pieces |
| Text.Strip | api/index.py:31 | `strip()` gives a string that is empty or bounded by non-space characters and holds only characters of the input |
| Text.StripRemovesEnds | api/index.py:31 | the input is white space, then the result, then white space: only leading and trailing white space is removed |
| Text.StripOf | api/index.py:31 | conversely, white space around a string without white space at its ends strips to exactly that string |
| Text.StripIdempotent | api/index.py:31 | stripping twice is stripping once |
| Text.LexLessTotal | server.py:761 | any two distinct strings are ordered one way or the other |
| Http.StatusCode | server.py:509-681 | 401 exactly for Unauthorized, 400 exactly for bad requests and failed sign-ins, 403 for a refused account, 404 exactly for not found, 500 for a failed code exchange, 302 for the redirects |
| Http.CallbackStep | server.py:509-656 | an `error` parameter or a missing `code` gives a 400 page, a failing exchange 500, an unconfigured address 403; only a configured account that completed the exchange gets a services connection (file server, `services_` state) or a device, named by the first non-blank `device` parameter on the file server and "Web Browser" otherwise |
| Http.CallbackBlankDevice | server.py:618 | on the file server, `?code=c&device=` names the device "Web Browser", since `parse_qs` drops the blank value |
| Http.CallbackDeviceAfterBlank | server.py:618 | on the file server, `?code=c&device=&device=x` names the device `x` |
| Http.SignInThenAuthorized | server.py:617-619 | the token issued by a sign-in opens the protected routes until the device expires, when no earlier device has its hash |
| FileServer.RouteOf | server.py:737-739 | a path under `/context/` names the file `path.replace("/context/", "")` |
| FileServer.ContextFileRoute | server.py:737-739 | `/context/<f>` addresses `f` whenever `f` does not itself contain `/context/` |
| FileServer.Gathered | server.py:756-761 | the merge loop keeps the memo well formed and writes no new token files |
| FileServer.GatheredSkipsEmpty | server.py:758-759 | empty account entries contribute nothing |
| FileServer.MergedEmailAccounts | server.py:756-761 | every merged email entry belongs to a non-empty configured account |
| FileServer.Take | server.py:841 | `s[:n]` is the first `min(n, |s|)` elements |
| FileServer.Server.constructor | server.py:33 | the raw account pieces, the loaded collections and empty memos |
| FileServer.Server.ValidateDeviceToken | server.py:75-90 | the device and the new device list are those of `Validation` |
| FileServer.Server.CreateDevice | server.py:92-105 | exactly one record is appended and the raw secret is returned |
| FileServer.Server.CheckAuth | server.py:408-433 | the verdict is `Authorized` on the old list, and the list afterwards is the validation's |
| FileServer.Server.GetService | server.py:172-198 | the handle and the cache afterwards are those of `Acquire`; a handle is of the requested kind and holds a valid credential |
| FileServer.Server.Gather | server.py:756-761 | the loop's merged entries and cache are those of `Gathered` |
| FileServer.Server.ConnectServices | server.py:582-590 | the cache afterwards is that of `StoreServicesToken` |
| FileServer.Server.Callback | server.py:509-656 | a refusal page changes nothing; the services flow stores the credential and evicts both handles; a sign-in appends exactly one device for the drawn secret and replies with that secret |
| FileServer.Server.DoGet | server.py:444-681 | `/health` counts; `/login` and `/auth/services` redirect and change nothing; `/callback` has the effect of `Callback`; `/auth/status` validates only the query token; on protected routes the device list is the validation's, an unauthorised request gets 401 with the cache unchanged, otherwise the view or fetch reply |
| FileServer.Server.ProtectedGet | server.py:675-681 | the device-only check updates the device list as the validation does; a refused request gets 401 with the cache unchanged; otherwise the fetch reply for Google routes and the view reply with the cache unchanged for the rest |
| FileServer.Server.ViewGet | server.py:684-787 | the stored collection or its open, today or typed view with the stored `syncedAt`; a context file or 404 listing the current names; the Gmail status map |
| FileServer.Server.FetchGet | server.py:756-862 | the email and calendar merges sorted by key, and the briefing's top 10 today tasks, the non-error emails among the first five merged emails, and `CLAUDE.md` |
| FileServer.Server.ReplaceTasks | server.py:950-966 | invalid JSON gives 400 and no change; otherwise the tasks are replaced and the count is the new length |
| FileServer.Server.ReplaceNotes | server.py:968-984 | as for tasks, for notes |
| FileServer.Server.ReplaceContext | server.py:986-1004 | as for tasks, for the context files, replying with their names |
| FileServer.Server.UpdateContextFile | server.py:1006-1044 | a device-only check (401), then the `.md` gate, invalid JSON, missing content (each 400 with no change), then exactly one file updated and `updatedAt = now*1000` |
| FileServer.Server.ReceiveGmailToken | server.py:1046-1066 | a malformed body gives 400 with its message; without both email and token, 400 and no change; otherwise the token file is written and only the Gmail handle evicted |
| FileServer.Server.DoPost | server.py:935-1070 | the check accepting the API key comes first (401, nothing changed); each route changes only its own state; `/tasks`, `/notes`, `/context` give 400 on invalid JSON or replace their collection; `/context/<f>` passes its own device-only check and gates before writing exactly that file; `/gmail/token` stores the token and evicts the Gmail handle or gives 400; other paths 404 |
| FileServer.Server.PostRoute | server.py:950-1070 | the same per-route results as `DoPost` once the first check has passed |
| FileServer.Server.ReplaceCollection | server.py:950-1004 | `/tasks`, `/notes` and `/context` each replace only their own collection, or give 400 with nothing changed on invalid JSON |
| KeyValue.Get | api/index.py:46-54 | a document is read only with a store configured, the key present and its text decodable |
| KeyValue.Put | api/index.py:56-64 | with a store the key is set; without one nothing changes |
| KeyValue.PutThenGet | api/index.py:46-64 | after a successful write the key reads back the written document |
| KeyValue.PutOtherKey | api/index.py:56-64 | a write changes no other key |
| KeyValue.Disconnected | api/index.py:48-49 | without a store every read gives the default |
| KeyValue.TokenKeyInjective | api/index.py:148 | distinct accounts have distinct token keys |
| KeyValue.StoredDevices | api/index.py:76 | the stored device list, `[]` by default |
| KeyValue.StoredTasks | api/index.py:333-335 | the stored tasks record, `{"tasks": [], "syncedAt": null}` by default |
| KeyValue.StoredNotes | api/index.py:372-374 | the stored notes record, empty by default |
| KeyValue.StoredContext | api/index.py:405-407 | the stored context record, empty by default |
| KeyValue.PostThenGetTasks | api/index.py:320-335 | with a store, a POSTed collection is what a later GET returns |
| KeyValue.PostWithoutStoreLost | api/index.py:320-335 | without a store, a POST is acknowledged but the next GET returns the default |
| Serverless.Validate | api/index.py:73-86 | the verdict is that of `Validation` on the stored list; a rejection writes nothing; only the devices key can change |
| Serverless.Created | api/index.py:88-101 | with a store the stored list gains exactly the new record; without one nothing is kept |
| Serverless.CreateThenValidate | api/index.py:88-101 | with a store, a created token validates exactly until its expiry |
| Serverless.CreateWithoutStore | api/index.py:88-101 | without a store, a created token never validates |
| Serverless.ViewOf | api/index.py:337-357 | the open and today task views over the stored tasks, and the defaults without a store |
| Serverless.ValidationKeepsViews | api/index.py:73-86 | validation writes only the devices key, so every view is the same before and after it |
| Serverless.Replacement | api/index.py:320-407 | each POST stores the payload's collection (default empty) with its `syncedAt` (default `now*1000`) and replies with the new count or file names |
| Serverless.PostThenView | api/index.py:320-335 | a POSTed task list is what GET `/tasks` then returns |
| Serverless.Usable | api/index.py:157-159 | a handle exists iff the credential is valid |
| Serverless.Acquire | api/index.py:146-159 | no stored token gives no handle; a stored document that is not a credential raises; a refresh that raises re-raises and writes nothing; a successful refresh is written back under the token key; a handle exists iff the (renewed) credential is valid; only the account's token key can change |
| Serverless.TokenThenAcquire | api/index.py:429-439 | after POST `/gmail/token` the next lookup uses the new credential |
| Serverless.AccountEmailsAsWritten | api/index.py:161-165 | as written, a raising lookup makes the account's fetch raise |
| Serverless.MergeAsWritten | api/index.py:409-417 | as written, the merge either raises or gives entries of configured accounts only |
| Serverless.AccountEmails | api/index.py:161-194 | a raising lookup gives one error record with the exception text; an account gives one error record or only emails, all carrying the account |
| Serverless.Merge | api/index.py:409-417 | every merged entry belongs to a configured account |
| Serverless.MergeAgreesWithAsWritten | api/index.py:409-417 | whenever the as-written request succeeds, the isolated merge gives the same entries and store |
| Serverless.RefreshFailureAbortsMerge | api/index.py:146-165 | one failing refresh makes the as-written request fail and lose the other account's mail; the isolated merge keeps it |
| Serverless.Api.constructor | api/index.py:31 | the accounts are the parsed setting |
| Serverless.Api.SetData | api/index.py:56-64 | returns whether a store is configured; the store afterwards is `Put` |
| Serverless.Api.ValidateDeviceToken | api/index.py:73-86 | the device and the store afterwards are those of `Validate` |
| Serverless.Api.CreateDevice | api/index.py:88-101 | the store afterwards is `Created`, and the raw secret is returned |
| Serverless.Api.Callback | api/index.py:235-304 | the decision of `CallbackStep` without a services flow: a refusal page changes nothing, a sign-in stores exactly one new "Web Browser" device and replies with the secret |
| Serverless.Api.CheckAuth | api/index.py:107-125 | the verdict is `Authorized` on the stored list, and the store afterwards is the validation's |
| Serverless.Api.Health | api/index.py:204-216 | the stored task, note and device counts and the number of accounts |
| Serverless.Api.AuthStatus | api/index.py:306-316 | validates only the `token` query parameter |
| Serverless.Api.GetView | api/index.py:320-407 | 401 without a valid device token; otherwise the view of the store as it was |
| Serverless.Api.PostCollection | api/index.py:320-407 | 401 without access; a malformed body gives 400; otherwise the collection key is written and the reply does not depend on the write |
| Serverless.Api.GetGmailService | api/index.py:146-159 | the outcome and the store afterwards are those of `Acquire` |
| Serverless.Api.FetchEmails | api/index.py:161-194 | the corrected fetch of the finding below: the records and the store afterwards are those of `AccountEmails`, so a raising lookup gives the account's error record (as written it fails the request, `AccountEmailsAsWritten`) |
| Serverless.Api.Emails | api/index.py:409-427 | the corrected route of the finding below: the accounts' records merged in order by `Merge` and sorted by descending date (as written one raising lookup fails the request, `MergeAsWritten`) |
| Serverless.Api.MergeEmails | api/index.py:409-427 | the loop over the configured accounts returns the entries and leaves the store exactly as `Merge` does |
| Serverless.MergeAdvance | api/index.py:409-427 | after one account's entries are taken, merging the remaining accounts completes the same result |
| Serverless.Api.GmailToken | api/index.py:429-439 | the token key is written only when both email and token are present and non-empty; otherwise 400 and no write |
| Serverless.Api.GmailStatus | api/index.py:441-449 | each account is mapped to whether its token key holds a document |

## Left out

- HTTP transport: the handler classes, Flask routing, headers, CORS, OPTIONS, `log_message`, and the HTML of the login, consent and briefing pages. A reply is the JSON content it carries; the briefing is its data.
- The OAuth 2.0 authorization-code flow of RFC 6749 section 4.1: the redirect URLs of `/login` and `/auth/services`, and the code exchange and ID-token check of `/callback`, whose outcome is an input (`Http.SignIn`); the HTML of its pages.
- Google client internals: building credentials and clients, the refresh call, and the Gmail and Calendar listing calls. They are inputs (`refresh`, `Fetched`, `answers`).
- SHA-256, `secrets.token_urlsafe` and the clock: these are parameters.
- Persistence mechanics: `open`/`json.dump` and the Redis client. Write failures of `save_*` and of `redis.set` are not modelled: a configured store always accepts a write. The devices-file load at start-up is the constructor's argument.
- A token file that exists but does not parse (`from_authorized_user_file` raising in `server.py`), which gives no handle there. The model's token files always hold credentials.
- Float timestamps and `fromisoformat` parsing: times are integer seconds, `syncedAt` integer milliseconds.
- The `days` query parameter of `/calendar/upcoming`: the window length only reaches the Google call, and a non-numeric value makes `int()` raise. Neither is modelled.
- A JSON body that is not an object, and Python truthiness beyond `None`/empty text and zero numbers. For example, an empty token object counts as present.
- The `fetchedAt`, `date`, `days_ahead`, `login_url` and `storage` fields of replies, and the exact texts of Google exceptions. The serverless `/auth/status` (api/index.py:309-315) sends no `device` name, while `Http.AuthInfo` holds the whole device for both deployments.
- Percent-decoding and `+` handling of query strings: `Auth.ParseQs` and `Auth.QueryArgs` take the decoded name/value pairs.
- Dictionary order of the status map: it is a `map`.
- Order of file names: the POST `/context` reply (server.py:999, api/index.py:404) and the 404 `available` list (server.py:752) list names in insertion order; `Http.FileNames` and `Http.FileMissing` hold sets.
- A collection key that is present but `null` or not a list, such as `{"tasks": null}`: server.py:954-961 stores `None`, then `len(None)` raises outside the `JSONDecodeError` handler, and later `/health` and `/tasks/open` raise too. `Http.Body` holds each key either absent or well-typed, so that input cannot be written in the model.
- A task whose `score` is `null`: the sort at server.py:704 raises `TypeError` when comparing it with a number. `Sync.Task` holds a score as an integer or absent (0 by `Sync.Score`), so that input cannot be written in the model.
- Concurrency: racing read-modify-write cycles on the globals or the store.
- `Sync.TodayTasks`, `Seqs.SortBy`, `Aggregate.SortEmails`, `Auth.Authorized`: specified by the lemmas listed above rather than by their own contracts.

## Findings

| source | as written | input that shows it | evidently intended | confidence | as-written member | corrected member |
|---|---|---|---|---|---|---|
| api/index.py:146-165 | `fetch_emails` calls `get_gmail_service` outside its `try`, and `get_gmail_service` has no `try` of its own, so a failing refresh, or a stored token that is not a credential, raises out of `/emails/unread` and `/emails/recent` and the whole request fails (the server variant catches this at server.py:182-196) | accounts `a`, `b`; `a`'s stored token is expired with a refresh token and refreshing raises; `b` has a valid token and one message | the failing account contributes one `{error, account}` record and the other accounts' mail is still returned | not executed | Serverless.MergeAsWritten (shown by Serverless.RefreshFailureAbortsMerge) | Serverless.Merge (Serverless.AccountEmails; Serverless.MergeAgreesWithAsWritten) |
