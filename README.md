# Image cache, error taxonomy and user-handler rules of a torrent index backend

This project models three parts of a torrent index web backend written in Rust.

- **The remote-image cache** (`src/cache/image/manager.rs`). A per-user quota record
  (`ImageCacheQuota`) counts how many bytes a user has caused to be fetched in a rolling
  window. `add_usage` first resets an expired window, then refuses a charge when the
  allowance is met, and otherwise adds the amount with saturation.
  The manager (`ImageCacheManager`) serves an image by URL in a fixed order:
  1. cache lookup;
  2. quota check;
  3. fetch;
  4. media-type check;
  5. size check;
  6. store;
  7. charge.
  Both are Dafny classes. The quota record's methods change its fields. The manager holds
  the byte store as a `map<string, seq<Byte>>` and the quota ledger as a map from user ids
  to quota objects.
- **The error taxonomy** (`src/errors.rs`). This covers every `ServiceError` variant
  with its display text, the HTTP status of each variant, and the error response.
  It also covers the conversions from database, `sqlx`, Argon2, I/O, boxed and
  `serde_json` errors.
- **The user handlers** (`src/routes/user.rs`). This covers the ordered validation of a
  registration and the rule that account 1 becomes administrator. It also covers the
  login guards, token verification and renewal, e-mail verification and the
  administrator check on banning.

Inputs from outside the program are parameters:
- the clock, as `now`;
- the network response, as a `FetchOutcome`;
- the byte store's accept/reject verdict;
- the database's and mailer's answers;
- Argon2 and the token signer, as functions.

Each handler that calls the database or the mailer returns a `Reply`: its response,
plus the calls it made, in order. `VerifyToken` makes no call and returns its result
alone. This lets a contract say which calls happen and which do not (for
example, "no lookup before the administrator check").

Machine integers are explicit. `U64` and `Usize` are 64-bit newtypes (a 64-bit target is
assumed). `SaturatingAdd` models `usize::saturating_add`. `WrappingSub` models a `u64`
subtraction in a release build.

As written in the source, `PasswordTooLong` displays "Username too long"
(errors.rs:55-56), and `ClosedForRegistration` keeps its doubled "is"; `Errors.Display`
keeps both texts.

Two facts about the quota ledger shape the manager's contract:
- Nothing inserts into the quota map, which starts empty (manager.rs:91). A user without
  a record is never refused for quota.
- The charge after a successful fetch is applied to a `.cloned()` copy of the user's
  record, and that copy is then dropped (manager.rs:142-144). The stored record never
  changes.
So in the model `GetImageByUrl` may modify only the cache field, and its contract says
the quota map and every stored record are unchanged. `ServeRequests`
shows the consequence: on a fresh manager, no request in any sequence is ever refused for
quota.

## Model

| member | source | states |
|---|---|---|
| `ImageCache.ImageCacheQuota.constructor` | src/cache/image/manager.rs:35-43 | a new record has usage 0 and a window starting now; user id, ceiling and period are the arguments |
| `ImageCache.ImageCacheQuota.Met` | src/cache/image/manager.rs:65-67 | the allowance is used up when usage reaches the ceiling: a zero ceiling is met from the start, and a usage saturated at the usize maximum meets every ceiling |
| `ImageCache.ImageCacheQuota.Reset` | src/cache/image/manager.rs:60-63 | usage becomes 0 and the window starts now; the frame leaves user id, ceiling and period untouched |
| `ImageCache.ImageCacheQuota.AddUsage` | src/cache/image/manager.rs:45-58 | an expired window (now - start > period) is reset before the met check, so an expired quota with a non-zero ceiling accepts even if it was met; the charge succeeds exactly when the window's usage is below the ceiling; an unexpired met quota refuses with the record unchanged; on success usage becomes the saturating sum and never decreases; ceiling, period and user id never change |
| `ImageCache.ImageCacheQuota.Clone` | src/cache/image/manager.rs:25-32 | the derived clone is a fresh record with equal fields |
| `ImageCache.ImageCacheManager.constructor` | src/cache/image/manager.rs:83-95 | the manager starts with the given store and an empty quota ledger |
| `ImageCache.ImageCacheManager.GetImageByUrl` | src/cache/image/manager.rs:97-147 | a cached URL returns its cached bytes whatever the quota, with nothing changed; on a miss, each error holds exactly when all earlier steps passed and its own step fails: a met existing quota before any fetch, then transport failure, then a missing or non-image media type or an unreadable body, then a body longer than the limit (equal passes) or a rejected store; any failure leaves the cache unchanged; success returns the fetched bytes and caches exactly them under the URL; the quota map and every stored record are unchanged |
| `ImageCache.IsImageContentType` | src/cache/image/manager.rs:118-124 | only a present `Content-Type` of `image/jpeg` or `image/png` is accepted; any other value, and a missing header, is rejected |
| `ImageCache.ServeRequests` | src/cache/image/manager.rs:89-147 | over any sequence of requests to a fresh manager, one result per request, none of them UserQuotaMet, and once a URL is served successfully every later request for it returns the same bytes |
| `ImageCache.RepeatedRequestIsServedFromCache` | src/cache/image/manager.rs:99-101 | after a successful first request, a second request for the same URL returns the same bytes whatever its own fetch; on a fresh manager neither request is refused for quota |
| `Primitives.SaturatingAdd` | src/cache/image/manager.rs:55 | the sum when it fits in a usize, the usize maximum otherwise; never below either operand |
| `Primitives.WrappingSub` | src/routes/user.rs:204 | the u64 difference modulo 2^64, the exact difference when it is not negative |
| `Text.Contains` | src/errors.rs:205 | `str::contains` holds exactly when the pattern occurs at some index of the text |
| `Text.Utf8Len` | src/routes/user.rs:91 | `String::len` counts UTF-8 bytes: at least the number of characters and at most four times it, and equal to it exactly when the text is ASCII |
| `Errors.Display` | src/errors.rs:11-125 | each variant's text is its `#[display]` text; only `InternalServerError` shows "internal server error", so that text always reports an internal error; `PasswordTooLong` shows "Username too long" as written |
| `Errors.StatusCode` | src/errors.rs:133-184 | always one of 400, 401, 403, 404, 500; 401 exactly for the three token errors; 404 exactly for UsernameNotFound, UserNotFound, AccountNotFound; 403 exactly for ClosedForRegistration, WrongPasswordOrUsername, EmailNotVerified, Unauthorized; 500 exactly for TrackerOffline and the wildcard's InternalServerError, EmailMissing, FailedToSendVerificationEmail; 400 for all others |
| `Errors.ErrorResponse` | src/errors.rs:186-196 | the response has the error's own status code, always 4xx or 5xx, a JSON content type, and the error's display text in its body |
| `Errors.FromDatabaseError` | src/errors.rs:219-233 | total; InternalServerError exactly for Error and UnrecognizedDatabaseDriver; each other database variant maps to its own service variant (CategoryAlreadyExists to CategoryExists, CategoryNotFound to InvalidCategory, TorrentAlreadyExists to InfoHashAlreadyExists); 404 only for UserNotFound |
| `Errors.FromSqlxError` | src/errors.rs:199-216 | InfoHashAlreadyExists exactly for a database error with code "2067" whose message contains "torrust_torrents.info_hash"; TorrentNotFound exactly for a database error with any other code or none; InternalServerError otherwise, including code "2067" on another column and every non-database error |
| `Errors.FromForeignError` | src/errors.rs:236-262 | the Argon2, I/O, boxed-error and serde_json conversions all give InternalServerError, status 500 |
| `UserRoutes.ValidateRegistration` | src/routes/user.rs:58-99 | the checks run in this order and the first failure wins: a required invitation is missing; a required e-mail is missing; the kept e-mail fails the validator (skipped when the policy ignores e-mail); the passwords differ; the password is too short (length <= min); the password is too long (length >= max); a payload that passes has min < byte length < max, its ignored invitation and e-mail cleared, and all other fields unchanged |
| `UserRoutes.Register` | src/routes/user.rs:55-140 | validation errors come first, then a hashing failure (InternalServerError), then a username with '@' (UsernameInvalid), all before any call; an admitted user is inserted first, with the kept e-mail or ""; an insert error maps with the database conversion; an administrator grant happens exactly for user id 1; a verification mail goes only to the kept e-mail and only with verification enabled; if it fails, the new user is deleted and the result is FailedToSendVerificationEmail; after a successful insert the calls are exactly, in order, the insert, the grant (id 1 only), then the mail and, when it fails, the delete; success holds exactly when nothing failed |
| `UserRoutes.Login` | src/routes/user.rs:142-184 | WrongPasswordOrUsername exactly for an unknown login or a wrong password; EmailNotVerified exactly when verification is enabled and a correctly authenticated user is unverified; a token exactly when every step passes, signed for the compact record and carrying its name and admin flag; a missing authentication record or an unparsable stored hash gives InternalServerError; a failed compact lookup gives its database error; the calls are exactly, in order, the profile lookup, the authentication lookup for a known user, and the compact lookup only after the password and e-mail checks pass |
| `UserRoutes.VerifyToken` | src/routes/user.rs:186-193 | succeeds with "Token is valid." exactly when the token verifies, and passes the verifier's error through otherwise |
| `UserRoutes.NeedsRenewal` | src/routes/user.rs:201-207 | for an unexpired token, renewal happens exactly when exp - now < 604800; the wrapping u64 subtraction means an already-expired token is not renewed unless it expired more than 2^64 - 604800 seconds ago |
| `UserRoutes.RenewToken` | src/routes/user.rs:195-216 | a failed verification returns its error with no call; otherwise the user is looked up by the token's id; the reply carries a freshly signed token when renewal is needed, and the supplied token unchanged otherwise, with the user's name and admin flag |
| `UserRoutes.VerifyEmail` | src/routes/user.rs:218-244 | the confirmation page exactly when the token decodes, has issuer "email-verification", and the database verifies; the TokenInvalid text exactly for an undecodable token or a wrong issuer; the internal-error text exactly when the database fails; the database is asked only for a well-issued token, and for its subject |
| `UserRoutes.BanUser` | src/routes/user.rs:247-267 | an unauthenticated caller gets the authentication error and a non-administrator gets Unauthorized, both before any lookup; any ban targets the looked-up profile's id with reason "no reason" until 9999-01-01; success holds exactly when the caller is an administrator and both database calls succeed, with the message "Banned user: <name>"; for an administrator the calls are exactly the profile lookup and, when it succeeds, the ban; a failed lookup or ban gives its database error |

## Left out

- Concurrency in the manager: the `RwLock` guards and the race between the quota check and the charge. The model runs one call at a time.
- The `reqwest` client, its timeout and the `unwrap` on building it (manager.rs:84-87, 109-115): network I/O. The fetch is an input `FetchOutcome`, so `maxImageRequestTimeoutMs` is stored but has no effect.
- `now_in_secs` and `SystemTime` (manager.rs:18-23): replaced by a `now` parameter. The panic for a clock before the epoch is not modelled.
- ImageCacheQuota.AddUsage: reads the clock once per call. The source reads it again inside `reset`, and the two readings may differ. The call requires `dateStartSecs <= now`, because the subtraction at line 47 would overflow otherwise.
- ImageCache.ImageCacheManager.GetImageByUrl: a store the byte cache accepts is modelled as inserting exactly that entry. The byte cache's own capacity and eviction policy (src/cache/cache.rs is not part of this model) may also drop other entries; the model does not capture that.
- Primitives.WrappingSub: release-build behaviour. A debug build panics on the same underflow in `renew_token`.
- `UserId` is an unbounded integer (an `i64` in the source's user model).
- Identity resolution inside the authorization service (`verify_jwt`, `get_user_compact_from_request`) and any database reads it makes: their results are inputs, and their calls are not in the call trace.
- Argon2 hashing and verification, JWT signing and decoding, `validate_email_address` and the mailer: foreign code, represented by parameters (functions or outcomes).
- The base URL passed to the verification mail (built from the connection info) is not part of the `SendVerificationMail` call.
- JSON serialisation of responses (`serde_json`, `HttpResponse::json`), successful HTTP bodies other than their data, and the `eprintln!` logging in the conversions.
- `init_routes` (user.rs:17-33): route registration only.
- The statistics importer cronjob, the end-to-end settings tests, the upgrade SQL wrappers, the dependency container, the about-page handlers and the tag record: I/O, tests or plain records with no logic of their own.
- `InvitatiOnOnSignup` and `EmailOnSignup` are defined in a configuration file that is not part of this model. Their variants are assumed to be `Required`, `Optional` and `None`; `None` appears here as `Disabled`.
