# timely — a Dafny model of the server core

timely is a small time-tracking web application. A signed-in user can:

- start a work session (a *timelog*) with a title;
- finish a session;
- see their running and finished sessions on a dashboard.

Accounts are created on a signup page and used on a login page. A signed
session token travels in the `timelytoken` cookie. All data lives in a
PostgREST-style REST backend, which the server drives through typed query
descriptors compiled into URL parameters.

This project models that core in Dafny, as immutable datatypes and pure
functions:

- **`Query`** (query.dfy): the multi-valued parameter map (`QueryMap`, as
  `map<string, seq<string>>`), its `add`/`set`, and the compilers from user
  filters, timelog filter trees and order lists to parameters (`eq.N`,
  `is.null`, `not.is.null`, `column.direction`).
- **`Postgrest`** (postgrest.dfy): what the backend does with such
  parameters, i.e. which rows a parameter map selects. This is the reference
  the compilers are proved sound against, including that `select` and
  `order` filter nothing.
- **`DbTypes`**, **`Db`** (db_types.dfy, db.dfy): the records and query
  descriptors, the canned queries, and an in-memory store behind the `Db`
  operations. The store answers each request by applying the Postgrest
  semantics to the parameters the client would actually send. An `online`
  flag stands for a reachable backend.
- **`Client`** (client.dfy): URL joining, the headers and parameters of
  every request (including the literal `Range` header), and how replies
  become values or errors.
- **`Accounts`** (accounts.dfy): the email, username and password
  validators; password-hash comparison; token claims; login; loading the
  user of a token; signup.
- **`Http`**, **`LoginRoute`**, **`SignupRoute`**, **`StartRoute`**,
  **`FinishRoute`**, **`DashboardRoute`**, **`Server`**: the request
  handlers, the per-page method dispatch, the session cookie, the start and
  finish state machine over the store, and the top-level handler. The
  top-level handler resolves the session, dispatches on path and method, and
  turns handler errors into a 500 page.
- **`Text`**, **`Wrappers`**, **`Errors`**: Rust's `str::trim`, `split`,
  `split_once`, `u64` parsing and UTF-8 length, plus `Result`/`Option` and
  the error kinds.

Foreign code is passed in as function values of the datatype
`Accounts.Primitives`:

- the password hash (BLAKE3);
- Unicode `is_alphanumeric`;
- token signing and verification (HMAC-SHA256 JWTs as in RFC 7519);
- RFC 3339 formatting and parsing.

The wall clock is the `now` argument, one value per request. Two ghost predicates state the only
assumptions made about the primitives:

- `TokensVerify`: a signed token verifies back to its claims.
- `AlphanumericNotSpace`: no alphanumeric character is whitespace.

Two details are modelled exactly as the code has them:

- The `Range` header of a listing is `offset-limit`, written out in decimal.
  `Client.RangeHeaderReadsBack` states that its second number is the limit
  itself, not the index of the last row. The store ignores the header, so it
  shapes no result here.
- Timestamps are cast with `i64 as u64` when they become token claims.
  `Accounts.AsU64` writes the wrap-around out for times before 1970.

## Model

| member | source | states |
|---|---|---|
| Query.Add | crates/server/src/db/client_supabase.rs:188-190 | `add` appends the value to the end of the key's list, keeps earlier values, leaves every other key's list unchanged, and adds the key |
| Query.Set | crates/server/src/db/client_supabase.rs:192-194 | `set` makes the key's list exactly `[v]`, discarding earlier values, and leaves every other key unchanged |
| Query.ValuesAddAll | crates/server/src/db/client_supabase.rs:188-190 | a run of `add`s appends to each key exactly that key's values from the run, in order |
| Query.BuildUserFilter | crates/server/src/db/client_supabase.rs:216-229 | `Id(n)` compiles to exactly `{id: ["eq.n"]}` and `Name(s)` to exactly `{username: ["eq.s"]}` |
| Query.BuildUserQuery | crates/server/src/db/client_supabase.rs:231-235 | no filter gives the empty map; otherwise the filter's map |
| Query.Entries | crates/server/src/db/client_supabase.rs:243-264 | every parameter a filter tree emits is under one of the keys `id`, `user_id`, `finished_at` |
| Query.EntriesAll | crates/server/src/db/client_supabase.rs:255-259 | the children of a conjunction emit only filter keys |
| Query.FilterInto | crates/server/src/db/client_supabase.rs:243-264 | the recursive builder adds to the map exactly the tree's entries, leaves first to last |
| Query.FilterEachInto | crates/server/src/db/client_supabase.rs:255-259 | the `And` loop adds each child's entries in turn |
| Query.BuildTimelogFilter | crates/server/src/db/client_supabase.rs:237-241 | the compiled filter lists, per key, exactly the tree's values for that key; every present key is a filter key and has at least one value |
| Query.LeafFilters | crates/server/src/db/client_supabase.rs:243-264 | the leaves compile to `id=eq.N`, `user_id=eq.N`, `finished_at=not.is.null` (finished) and `finished_at=is.null` (running); `And([])` adds nothing |
| Query.AndConcatenates | crates/server/src/db/client_supabase.rs:255-259 | the values of `And(a + b)` under any key are those of `And(a)` followed by those of `And(b)` |
| Query.EntriesAllConcat | crates/server/src/db/client_supabase.rs:255-259 | the entries of concatenated children are the concatenated entries |
| Query.AndReorderInvariant | crates/server/src/db/client_supabase.rs:255-259 | reordering the children of a conjunction leaves every key's values unchanged as a multiset |
| Query.OrderParams | crates/server/src/db/client_supabase.rs:273-283 | one `column.direction` value per order item, in input sequence |
| Query.OrderEntriesValues | crates/server/src/db/client_supabase.rs:273-283 | the order loop contributes values only under `order`, exactly the order parameters |
| Query.OrdersInto | crates/server/src/db/client_supabase.rs:273-283 | the order loop is one `add("order", …)` per item, in input sequence |
| Query.FilterBase | crates/server/src/db/client_supabase.rs:267-271 | with no filter the map starts empty; otherwise it holds the filter's values; neither `order` nor `select` is present |
| Query.BuildTimelogQuery | crates/server/src/db/client_supabase.rs:266-286 | `order` lists the order parameters in input sequence; every other key lists exactly the filter's values; `select` is never emitted |
| Query.OrderedValues | crates/server/src/db/client_supabase.rs:273-283 | appending the order entries extends `order` and changes no other key |
| Query.TimelogQueryOrderFree | crates/server/src/db/client_supabase.rs:266-286 | a query with a filter and no order compiles to exactly the filter's map |
| Postgrest.MatchesEmpty | crates/server/src/db/client_supabase.rs:184-186 | an empty parameter map selects every row |
| Postgrest.MatchesAdd | crates/server/src/db/client_supabase.rs:188-190 | adding a parameter narrows the selection to rows that also satisfy it |
| Postgrest.MatchesAddAll | crates/server/src/db/client_supabase.rs:188-190 | adding a run of parameters selects the rows satisfying all of them |
| Postgrest.EqualityCondition | crates/server/src/db/client_supabase.rs:246 | `eq.n` on a decimal column holds exactly when the stored number is `n` |
| Postgrest.EntriesSound | crates/server/src/db/client_supabase.rs:243-264 | a row satisfies all entries of a filter tree iff the timelog satisfies the tree |
| Postgrest.EntriesAllSound | crates/server/src/db/client_supabase.rs:255-259 | a row satisfies all children's entries iff it satisfies every child |
| Postgrest.FilterSound | crates/server/src/db/client_supabase.rs:237-264 | the compiled filter selects exactly the timelogs the tree describes |
| Postgrest.ReservedIgnored | crates/server/src/db/client_supabase.rs:282 | adding or setting a `select` or `order` parameter never changes which rows are selected |
| Postgrest.TimelogQuerySound | crates/server/src/db/client_supabase.rs:266-286 | a compiled query selects exactly the timelogs its filter describes, or all without a filter |
| Postgrest.SameFilterValues | crates/server/src/db/client_supabase.rs:326-327 | two maps that agree on every non-reserved key select the same rows |
| Postgrest.UserFilterSound | crates/server/src/db/client_supabase.rs:216-229 | the compiled user filter selects exactly the users with that id or name |
| DbTypes.Timelog.FinishedTime | crates/server/src/db/types.rs:69-73 | no raw finish text means no finish time; present raw text gives exactly its RFC 3339 parse, so parseable text always yields a finish time |
| DbTypes.TimelogPatch.ApplyTo | crates/server/src/db/types.rs:93-101 | present patch fields overwrite; absent ones keep the stored value; id, owner and times never change |
| DbTypes.PatchJson | crates/server/src/db/types.rs:93-101 | the serialised patch has a member for each present field and none for an absent one |
| DbTypes.TimelogFilter.AndWith | crates/server/src/db/types.rs:112-114 | `a.and(b)` is exactly `And([a, b])` |
| DbTypes.Ascending | crates/server/src/db/types.rs:137-139 | `Order::asc(e)` has expression `e` and direction `Asc` |
| DbTypes.Descending | crates/server/src/db/types.rs:141-143 | `Order::desc(e)` has expression `e` and direction `Desc` |
| DbTypes.NewQuery | crates/server/src/db/types.rs:161-168 | no filter, limit 50, offset 0, no order |
| DbTypes.NewSingleId | crates/server/src/db/types.rs:170-176 | filter `Id(id)`, limit 1, offset and order as in `new()` |
| Db.UserActiveTimelogs | crates/server/src/db/mod.rs:23-30 | filter `And([UserId(u), IsFinished(false)])`, limit 100, offset 0, order newest start first |
| Db.UserFinishedTimelogs | crates/server/src/db/mod.rs:32-39 | filter `UserId(u).and(IsFinished(true))`, limit 100, offset 0, order newest start first |
| Db.TimelogById | crates/server/src/db/mod.rs:41-48 | filter `Id(id)`, limit 1, offset 0, no order |
| Db.FinishedFlipsFlag | crates/server/src/db/mod.rs:32-39 | the finished query equals the active query with only the flag flipped |
| Db.TimelogByIdIsSingleId | crates/server/src/db/mod.rs:41-48 | `timelog_by_id(id)` equals `new_single_id(id)` in every field |
| Db.ActiveQueryCompiled | crates/server/src/db/mod.rs:23-30 | the active query compiles to exactly `{user_id: ["eq.u"], finished_at: ["is.null"], order: ["started_at.desc"]}` |
| Db.ActiveValuesAt | crates/server/src/db/mod.rs:23-30 | key by key, the compiled active query lists exactly those values |
| Db.ActiveEntries | crates/server/src/db/client_supabase.rs:255-259 | the active filter emits the user-id entry, then the running-flag entry |
| Db.PairHolds | crates/server/src/db/types.rs:112-114 | a row satisfies `a.and(b)` iff it satisfies both |
| Db.FirstMatching | crates/server/src/db/client_supabase.rs:297-298 | the first matching id is the least id whose row matches; none means no row matches |
| Db.RequestsSelect | crates/server/src/db/client_supabase.rs:326-327 | the parameters of a read and of an update select exactly the rows the query's filter describes |
| Db.UserRequestSelects | crates/server/src/db/client_supabase.rs:293-294 | the parameters of a user read select exactly the users the filter describes |
| Db.UsersRequestSelects | crates/server/src/db/client_supabase.rs:303-304 | the parameters of a user listing select the users the filter describes, or all |
| Db.UserLookup | crates/server/src/db/client_supabase.rs:289-300 | fails iff offline; a result is a stored user matching the filter with the least such id; none means no stored user matches |
| Db.Users | crates/server/src/db/client_supabase.rs:302-309 | fails iff offline; returns exactly the stored users the filter describes |
| Db.InsertUser | crates/server/src/db/client_supabase.rs:311-320 | fails iff offline or ids are exhausted, then changes nothing; otherwise stores the draft under a fresh id and returns it |
| Db.Timelogs | crates/server/src/db/client_supabase.rs:322-332 | fails iff offline; returns exactly the stored logs the query's filter describes, by ascending id |
| Db.ReadLogs | crates/server/src/db/client_supabase.rs:326-330 | the rows answering a read are exactly the selected logs, by ascending id |
| Db.ReadRows | crates/server/src/db/client_supabase.rs:326-330 | the backend's answer to the read request is the selected logs, ascending |
| Db.ReadSelects | crates/server/src/db/client_supabase.rs:326-327 | with `select=*` added, the read parameters select what the query describes |
| Db.UpdateSelects | crates/server/src/db/client_supabase.rs:348-349 | with `select=*` set, the update parameters select what the selector describes |
| Db.InsertTimelog | crates/server/src/db/client_supabase.rs:334-341 | fails iff offline or ids are exhausted, then changes nothing; otherwise stores an unfinished log with the draft's fields under a fresh id |
| Db.PatchWhere | crates/server/src/db/client_supabase.rs:343-353 | the patch applies to exactly the accepted logs; the others and the key set are unchanged |
| Db.PatchedRows | crates/server/src/db/client_supabase.rs:343-353 | the echoed rows are exactly the patched versions of the accepted logs, by ascending id |
| Db.UpdateTimelogs | crates/server/src/db/client_supabase.rs:343-353 | fails iff offline, then changes nothing; otherwise patches every selected log, leaves the rest, and echoes the patched rows |
| Db.UpdateRows | crates/server/src/db/client_supabase.rs:343-353 | the update request's selection equals the selector's filter, so the store patches exactly those rows |
| Db.ActiveLogs | crates/server/src/db/mod.rs:23-30 | the active query returns exactly the user's unfinished logs |
| Db.FinishedLogs | crates/server/src/db/mod.rs:32-39 | the finished query returns exactly the user's finished logs |
| Db.SelectsById | crates/server/src/db/types.rs:170-176 | in a valid store the single-id selector picks exactly the log under that id |
| Db.ByIdRows | crates/server/src/db/mod.rs:41-48 | any ascending answer to a by-id query is that one log, or nothing |
| Db.LogById | crates/server/src/db/mod.rs:41-48 | the by-id query returns the log stored under that id, or nothing |
| Db.UpdateByIdResult | crates/server/src/server/routes/timelog_finish.rs:44-55 | patching by a single-id selector echoes exactly that log, patched |
| Db.UpdateByIdStore | crates/server/src/server/routes/timelog_finish.rs:44-52 | patching by a single-id selector changes that log and no other |
| Client.Connect | crates/server/src/db/client_supabase.rs:40-52 | keeps the key and drops one trailing `/` from the endpoint, and only one |
| Client.UrlJoinSingleSlash | crates/server/src/db/client_supabase.rs:54-60 | with or without a trailing endpoint slash and a leading path slash, the URL is `endpoint/path` |
| Client.UrlJoinAtMostOne | crates/server/src/db/client_supabase.rs:42-45 | only one slash is dropped on each side, so doubled slashes survive |
| Client.UrlJoinExample | crates/server/src/db/client_supabase.rs:58-60 | `https://h/` and `/users?x` join to `https://h/users?x` |
| Client.RangeHeaderReadsBack | crates/server/src/db/client_supabase.rs:97 | the `Range` header splits at its dash into the decimal offset and the decimal limit, each of which parses back |
| Client.SelectIsStar | crates/server/src/db/client_supabase.rs:293-349 | every read and update asks for exactly `select=*`, whether added or set |
| Client.UpdateIgnoresPagination | crates/server/src/db/client_supabase.rs:343-353 | an update request does not depend on the selector's limit or offset |
| Client.UpdateSendsNoRange | crates/server/src/db/client_supabase.rs:118-135 | an update carries no `Range` header; a listing does |
| Client.SendAddsApiKey | crates/server/src/db/client_supabase.rs:61-63 | `send` sets the `apikey` header and keeps every other header |
| Client.UserRequest | crates/server/src/db/client_supabase.rs:289-300 | a GET of `/users` whose parameters are the user filter's plus exactly `select=*`, with no body and no `Range` header |
| Client.UsersRequest | crates/server/src/db/client_supabase.rs:302-309 | a GET of `/users` with the user query's parameters plus exactly `select=*`, and a `Range` header that reads back as offset and limit |
| Client.UserCreateRequest | crates/server/src/db/client_supabase.rs:311-320 | a POST of the draft to `/users` without parameters, asking for the written rows back |
| Client.TimelogsRequest | crates/server/src/db/client_supabase.rs:322-332 | a GET of `/timelogs` with the compiled query plus exactly `select=*`, and a `Range` header that reads back as offset and limit |
| Client.TimelogCreateRequest | crates/server/src/db/client_supabase.rs:334-341 | a POST of the draft to `/timelogs` without parameters, asking for the written rows back |
| Client.TimelogUpdateRequest | crates/server/src/db/client_supabase.rs:343-353 | a PATCH of `/timelogs` with the selector's compiled query plus exactly `select=*`, no `Range` header, and a body with a `finished_at` member iff the patch sets it |
| Client.ReadOutcome | crates/server/src/db/client_supabase.rs:82-90 | a read succeeds iff a 2xx reply decodes; a failed exchange passes on the transport error; a non-2xx status is an error before the body is read; an undecodable 2xx body is a decode error |
| Client.WriteOutcome | crates/server/src/db/client_supabase.rs:136-159 | a write succeeds iff a 2xx reply decodes; a failed exchange passes on the transport error; a non-2xx status carries the parsed API error when there is one; an undecodable 2xx body is a decode error |
| Client.OutcomesDifferOnlyOnStatus | crates/server/src/db/client_supabase.rs:82-159 | reads and writes classify a reply identically exactly when it is not a non-2xx status; on such a status a read reports the bare status and a write the API error |
| Client.UserOutcome | crates/server/src/db/client_supabase.rs:297-299 | a user read yields the first row, or none exactly when no row came back |
| Client.CreatedOutcome | crates/server/src/db/client_supabase.rs:315-319 | a create yields the first echoed row; an empty echo fails with the operation's own text |
| Text.Trim | crates/server/src/logic/user.rs:46 | the result is what is left after cutting an all-whitespace prefix and suffix; it is empty iff the input is all whitespace, and otherwise starts and ends with non-whitespace; input without whitespace is unchanged |
| Text.TrimUnique | crates/server/src/logic/user.rs:46 | those properties determine the result: any infix with whitespace-only margins that neither starts nor ends with whitespace is the trim |
| Text.Split | crates/server/src/server/mod.rs:107-111 | at least one piece; no piece holds the separator; joining the pieces restores the input |
| Text.SplitJoin | crates/server/src/server/mod.rs:107-111 | splitting a join of separator-free pieces gives back those pieces |
| Text.SplitOnce | crates/server/src/logic/user.rs:129 | no result iff the character is absent; otherwise the input is `a + c + b` with `c` not in `a` |
| Text.SplitOnceAt | crates/server/src/logic/user.rs:129 | splitting `a + c + b` with `c` not in `a` gives `(a, b)` |
| Text.Decimal | crates/server/src/db/client_supabase.rs:221 | decimal text is non-empty digits without a leading zero |
| Text.DecimalValue | crates/server/src/logic/user.rs:31 | the digits of `n` read back as `n` |
| Text.ParseU64 | crates/server/src/logic/user.rs:86-89 | a parse succeeds only on an optional `+` followed by at least one digit, and gives the digits' value; a digit run (with or without `+`) parses iff its value is below 2^64 |
| Text.ParseDecimal | crates/server/src/logic/user.rs:86-89 | parsing the decimal text of `n` gives `n` exactly when `n` fits in a u64 |
| Text.ParsePlus | crates/server/src/logic/user.rs:86-89 | a leading `+` is accepted and does not change the outcome |
| Text.DigitsLeadingZero | crates/server/src/logic/user.rs:86-89 | a leading zero does not change the value of a digit run |
| Text.ParseLeadingZero | crates/server/src/logic/user.rs:86-89 | leading zeros are accepted and do not change the outcome |
| Text.ParseExamples | crates/server/src/logic/user.rs:86-89 | `007` and `+7` parse as 7; `+`, the empty text and `-7` do not parse |
| Text.Utf8Len | crates/server/src/logic/user.rs:144 | the byte length lies between the character count and four times it, and equals it for ASCII |
| Accounts.SaturatingAdd | crates/server/src/logic/user.rs:26 | adds when the sum is in the representable range, else clamps to its nearer bound |
| Accounts.AsU64 | crates/server/src/logic/user.rs:29-30 | `i64 as u64`: identity on non-negative values, wrap-around by 2^64 on negative ones |
| Accounts.ValidateEmail | crates/server/src/logic/user.rs:127-134 | accepted iff the address is well formed; rejection says "invalid email" |
| Accounts.EmailAccepts | crates/server/src/logic/user.rs:127-134 | well formed iff there is an `@` and both the part before the first `@` and the remainder are non-blank |
| Accounts.EmailWithTwoAts | crates/server/src/logic/user.rs:129 | `a@b@c` is accepted |
| Accounts.AllChars | crates/server/src/logic/user.rs:137 | true iff every character passes the test |
| Accounts.ValidateUsername | crates/server/src/logic/user.rs:136-141 | accepted iff every character is alphanumeric; the empty name is accepted |
| Accounts.ValidUsernameTrimmed | crates/server/src/logic/user.rs:136-141 | an accepted name is its own trim |
| Accounts.ValidatePassword | crates/server/src/logic/user.rs:143-148 | eight characters always pass; under two characters always fail; rejection says the password is too short |
| Accounts.PasswordCountsBytes | crates/server/src/logic/user.rs:143-148 | for ASCII passwords acceptance is exactly length ≥ 8; four two-byte characters already pass |
| Accounts.ValidatePasswordHash | crates/server/src/logic/user.rs:13-16 | true iff the stored hash is the hash of the password |
| Accounts.StoredHashValidates | crates/server/src/logic/user.rs:13-20 | the hash of a password always validates that password |
| Accounts.TokenClaims | crates/server/src/logic/user.rs:24-37 | `sub` is the decimal user id; `iat` is now cast to u64; `exp` is now plus thirty days, saturating at the last representable time, cast to u64 (so wrapped by 2^64 before 1970) |
| Accounts.SubjectReadsBack | crates/server/src/logic/user.rs:83-92 | parsing the subject back recovers the issuing user's id |
| Accounts.BuildUserToken | crates/server/src/logic/user.rs:24-37 | the token verifies under the same key to exactly the issued claims |
| Accounts.UserLogin | crates/server/src/logic/user.rs:39-58 | looks up the trimmed name; offline gives the lookup error, online with no such user gives "User not found"; otherwise, for the first user under the name (least id), the login succeeds with that user iff its hash matches the password's, and fails with "Wrong password" otherwise |
| Accounts.LoginFindsOnly | crates/server/src/logic/user.rs:45-53 | the only user under a name, with a matching hash, is logged in |
| Accounts.LoginWrongPassword | crates/server/src/logic/user.rs:45-53 | the only user under a name, with a different hash, is refused with "Wrong password" |
| Accounts.FirstNamedUnique | crates/server/src/logic/user.rs:39-47 | there is only one first user (least id) under a name, since ids are the store's keys |
| Accounts.LoadUserForToken | crates/server/src/logic/user.rs:83-92 | an unverifiable token, a non-numeric subject, an offline store and an unknown id each fail; otherwise it is the stored user with that id |
| Accounts.OnlySubjectMatters | crates/server/src/logic/user.rs:79-92 | two verifiable tokens with the same subject load the same user, whatever their expiry |
| Accounts.TokenLoadsIssuer | crates/server/src/logic/user.rs:83-92 | the token issued for a stored user loads that user back |
| Accounts.ValidateSignup | crates/server/src/logic/user.rs:111-114 | checks email, then username, then password; accepted iff all three pass |
| Accounts.UserSignup | crates/server/src/logic/user.rs:111-125 | any validation or store failure creates nothing; success stores exactly one new user with the form's name and email and the hash of the password |
| Accounts.UserSignupAndLogin | crates/server/src/logic/user.rs:101-109 | the signup's store effect and outcome, plus the new user's token |
| Accounts.SignupThenLogin | crates/server/src/logic/user.rs:39-58 | after signing up under an unused name, logging in with that name and password succeeds for the new user |
| Accounts.SignupTokenLoadsUser | crates/server/src/logic/user.rs:101-109 | the token from a signup loads the new user |
| Http.HtmlOk | crates/server/src/server/mod.rs:184-190 | status 200 with the page and no redirect or cookie |
| Http.NotFound | crates/server/src/server/mod.rs:218-224 | status 404 with the not-found page |
| Http.RedirectHome | crates/server/src/server/mod.rs:200-206 | a 303 to `/` carrying the cookie |
| DashboardRoute.RequireUser | crates/server/src/server/mod.rs:95-97 | succeeds iff there is a user, with the fixed message otherwise |
| DashboardRoute.BuildDashboard | crates/server/src/server/routes/dashboard.rs:23-80 | fails without a user or when offline; otherwise shows exactly the user's running logs and finished logs, with the given error |
| DashboardRoute.HandleDashboard | crates/server/src/server/routes/dashboard.rs:13-21 | GET shows the dashboard with no error when there is a user and the store answers; other methods give 404 |
| LoginRoute.DecodeLoginForm | crates/server/src/server/routes/login.rs:83-87 | the form decodes iff both `user` and `password` are present |
| LoginRoute.BuildAuthCookie | crates/server/src/server/routes/login.rs:39-50 | name `timelytoken`, path `/`, Secure, SameSite=Strict, HttpOnly, expiry now plus thirty days, saturating |
| LoginRoute.LoginSubmit | crates/server/src/server/routes/login.rs:52-81 | empty user, then empty password, are rejected before the lookup; the login's error propagates; success is a 303 setting the session cookie |
| LoginRoute.HandleLogin | crates/server/src/server/routes/login.rs:21-33 | GET shows the form; a failed POST shows it again with the error at 200; other methods give 404 |
| LoginRoute.BlankNameIsLookedUp | crates/server/src/server/routes/login.rs:55-67 | a name of spaces passes the emptiness check and is looked up as the empty name |
| LoginRoute.LoginCookieLoadsUser | crates/server/src/server/routes/login.rs:62-80 | the cookie of a successful login loads the user with the trimmed name |
| SignupRoute.DecodeSignupForm | crates/server/src/server/routes/signup.rs:73-78 | the form decodes iff `username`, `password` and `email` are all present |
| SignupRoute.SignupCookie | crates/server/src/server/routes/signup.rs:57-61 | name `timelytoken`, the token, expiry now plus thirty days, and no path, Secure, SameSite or HttpOnly attribute |
| SignupRoute.CheckFields | crates/server/src/server/routes/signup.rs:38-46 | username, then email, then password must be non-empty; an empty email reports the username message |
| SignupRoute.SignupSubmit | crates/server/src/server/routes/signup.rs:35-71 | failures change nothing and carry their error; a submission that passes the field checks succeeds iff the signup succeeds, and then is a 303 whose cookie carries the new session's token |
| SignupRoute.HandleSignup | crates/server/src/server/routes/signup.rs:17-29 | GET shows the form; a failed POST shows it again at 200; other methods give 404 and change nothing |
| SignupRoute.EmptyEmailReportsUsername | crates/server/src/server/routes/signup.rs:41-43 | an empty email is reported as "Must specify a username" |
| SignupRoute.SignupCookieLoadsNewUser | crates/server/src/server/routes/signup.rs:54-61 | the signup cookie loads the newly created user |
| StartRoute.DecodeStartForm | crates/server/src/server/routes/timelog_start.rs:12-15 | the form decodes iff `title` is present |
| StartRoute.TryStart | crates/server/src/server/routes/timelog_start.rs:26-50 | a blank title, a missing user, a running log or an offline store each fail and change nothing; success creates one unfinished log with the trimmed title, no description and both times now |
| StartRoute.StartFor | crates/server/src/server/routes/timelog_start.rs:34-49 | refuses while the user has a running log; otherwise adds exactly one log for the user |
| StartRoute.NoActiveLog | crates/server/src/server/routes/timelog_start.rs:35-38 | the answer to the active query is empty iff the user has no running log |
| StartRoute.HandleStart | crates/server/src/server/routes/timelog_start.rs:17-24 | the start's store effect; the page is the dashboard of the store after the start, with any start error shown inline at 200; only a missing user or offline store escapes |
| StartRoute.StartLeavesOneActive | crates/server/src/server/routes/timelog_start.rs:35-49 | after a successful start the new log is the user's only running log |
| FinishRoute.DecodeFinishForm | crates/server/src/server/routes/timelog_finish.rs:13-16 | the form decodes iff `timelog_id` is present and parses as a u64 |
| FinishRoute.FinishPatch | crates/server/src/server/routes/timelog_finish.rs:45-49 | only the finish time is set, so the serialised patch has the single key `finished_at` |
| FinishRoute.TryFinish | crates/server/src/server/routes/timelog_finish.rs:27-60 | an unknown id gives "Timelog not found" and a finished log "Log entry already closed", both changing nothing; success patches exactly that log and returns it finished |
| FinishRoute.HandleFinish | crates/server/src/server/routes/timelog_finish.rs:18-25 | the finish's store effect; the page is the dashboard of the store after the finish, with any finish error shown inline at 200; it fails iff there is no user or the store is offline |
| FinishRoute.FinishTouchesOnlyFinishTime | crates/server/src/server/routes/timelog_finish.rs:42-49 | the finished log equals the old one with only its finish time set |
| FinishRoute.OwnerNotChecked | crates/server/src/server/routes/timelog_finish.rs:30 | the outcome does not depend on which signed-in user asks |
| FinishRoute.FinishTwice | crates/server/src/server/routes/timelog_finish.rs:38-40 | finishing the same log again fails as already closed and changes nothing |
| Server.RequiredVar | crates/server/src/server/mod.rs:46-50 | a variable is present iff set and not blank, and its value is trimmed |
| Server.ConfigFromEnv | crates/server/src/server/mod.rs:45-68 | succeeds iff all three variables are set and non-blank, with trimmed values; the first missing or blank variable, in the order endpoint, key, token secret, is the one reported |
| Server.SplitPath | crates/server/src/server/mod.rs:105-111 | never empty; no part holds `/`; the parts join back to the path without its leading `/` |
| Server.RootPath | crates/server/src/server/mod.rs:107-111 | `/` splits into `[""]`, not into no parts |
| Server.SplitPathSegments | crates/server/src/server/mod.rs:107-111 | a path of slash-free segments splits back into those segments |
| Server.RouteFor | crates/server/src/server/mod.rs:139-155 | signed out: exactly `["signup"]` goes to signup and all else to login; signed in: the three POST routes, any GET to the dashboard, anything else 404 |
| Server.RootReachesDashboard | crates/server/src/server/mod.rs:146-150 | `GET /` reaches the dashboard through the GET fallback |
| Server.ResetAuthCookies | crates/server/src/server/mod.rs:172-182 | a 303 to `/` with an empty `timelytoken` cookie, with the login cookie's attributes and expiry thirty days in the past |
| Server.Recover | crates/server/src/server/mod.rs:158-168 | success passes through; an error becomes a 500 error page carrying it |
| Server.Dispatch | crates/server/src/server/mod.rs:139-156 | the route decides the handler: signup, login, dashboard, logout and 404 answer as those handlers do; start and finish answer with their handler's page or, on a handler error, the 500 page; only signup, start and finish may change the store, each as its handler does |
| Server.StatusKnown | crates/server/src/server/mod.rs:139-169 | every dispatched response has status 200, 303, 404 or 500 |
| Server.Handle | crates/server/src/server/mod.rs:104-170 | a sent token that loads no user resets the cookie before routing; otherwise the request is dispatched with the loaded user or none; no error escapes |
| Server.SignedOutSeesLogin | crates/server/src/server/mod.rs:139-143 | without a session every path but `/signup` is the login handler, whatever the method |
| Server.LogoutResets | crates/server/src/server/mod.rs:149 | logging out with a live session resets the cookie and changes nothing |
| Server.LogoutPath | crates/server/src/server/mod.rs:107-111 | `/user/logout` splits into `["user", "logout"]` |

## Left out

- HTTP transport, JSON (de)serialisation and URL encoding are not modelled. `QueryMap::to_query` is left out because its pair order follows `HashMap` iteration and is unspecified. A request is a value: method, path, parameter map, headers and body.
- The store returns matching rows by ascending id. It ignores the `order` parameter and the `Range` header, because sorting and paging are the backend's job. The dashboard therefore lists the right logs, but not necessarily in the backend's order or count.
- The store does not enforce unique usernames or any other database constraint. Its id counters stand for the backend's sequences; exhausting them is an invented error.
- The dashboard's HTML, the login and signup pages, the navbar and the error page are views named by datatype constructors, not rendered markup. The ui modules and `util.rs` are not part of this model.
- `get_cookies` (Cookie header parsing) is not modelled. A request carries the `timelytoken` value directly, or none.
- `crates/server/src/main.rs`, `crates/server/src/lib.rs` and `crates/xtask/src/main.rs` are not part of this model. They are the entry point, the error wrapper and developer tooling.
- Reading the request body (`read_to_vec`) and `parse_form` failures are one error, `FormRejected`. Duplicate form keys and percent-decoding are not modelled.
- The source reads the wall clock separately for the token (user.rs:25), the login and signup cookies (login.rs:46, signup.rs:60), the reset cookie (mod.rs:175) and the start and finish times. The model passes one `now` per request to all of them, so a cookie's expiry always agrees with its token's `exp` here; the source does not promise that.
- Client.ReadOutcome, Client.WriteOutcome, Client.UserOutcome and Client.CreatedOutcome are not wired into the store. The `Db` operations fail with `Offline` directly when the backend is unreachable, and the store never answers with a bad status or an undecodable body. These four functions describe how such replies would be classified.
- Finishing formats the time with `format(&Rfc3339).unwrap()`, and that format is a total primitive here, so its panic path is not modelled.
- Token signing cannot fail in the model. The HMAC key is always valid, and serialising the claims is total.
- Start checks for running logs, then creates one. Two concurrent starts can both pass the check; the model handles one request at a time.
- Server.ResetAuthCookies: the expiry is `now` minus thirty days as a plain integer. The source's `OffsetDateTime` subtraction panics within thirty days of year -9999; that case is not modelled.
- FinishRoute.TryFinish: the branch where the update echoes no row ("not found") cannot happen here. One request at a time means the log read a moment earlier is still there.
- Accounts.ValidatePassword: its contract gives the character-count bounds. The exact rule, "accepted iff the UTF-8 length is at least 8", is stated through `Text.Utf8Len` and `Accounts.PasswordCountsBytes`.
- Postgrest: only the operators the client emits are modelled (`eq.`, `is.null`, `not.is.null`); any other operator selects nothing.
