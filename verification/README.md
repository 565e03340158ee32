# Verified model of auth-service

A Dafny model of the stateful core of auth-service: refresh sessions, the throttles in front of
login, password reset, accounts and the password-hash format. `dafny verify dfyconfig.toml`
checks everything.

## What is modelled

**Refresh sessions.** `SessionProtocol` is the session half of `AuthService` as a transition
system. Each store call and each cache call is one atomic step, any number of requests are in
flight, calls fail, the clock advances and the cache loses entries between any two steps. A
history records every token ever issued and the token it replaced. `SessionInvariant` is the
inductive invariant, `SessionLineage` the rotation chains, `SessionSafety` the theorems about
whole runs. `SessionService` is the same service as imperative code over the two-index
in-memory store (`MemorySessionStore`) and the TTL cache (`SessionCache`). `SessionSteps`
connects the two: an RPC of the service does what its protocol steps do when nothing comes in
between. `SessionProgress` bounds the calls a request makes. `SessionCoherence` treats runs of one
request at a time, `StaleEntries` and `SessionOrphans` show what interleaving adds, and when.
`SessionOutcomes` says row by row what each RPC promises its caller, `SessionAnswers` what an answer
means in every interleaving, and `SessionRefinement` that every sequence of requests the service
handles is a run of the protocol.

**Throttles.** `Redis` is a map from keys to values with deadlines. `BruteForce` is the guard in
both its modes, `BruteForceBound` the number of guesses it admits one login at a time,
`BruteForceOverlap` the number when logins overlap between their Redis calls, `BruteForceFallback`
the closed form of the in-process record and the forecasts. `RateLimit` is the fixed-window limiter
and `Interceptor` its use for every request and, more strictly, for six credential methods;
`InterceptorExact` says which requests pass. `LoginGuard` joins guard and password check.

**Password reset.** `ResetStore` holds codes and tokens for both stores, `ResetProtocol` is the
transition system over single store calls, `ResetService` the imperative form. `ResetSafety`,
`ResetProvenance`, `ResetOneCode`, `ResetSecondToken` and `ResetOneUse` hold the results,
`ResetRuns` the runs that refute a claim. The codes saved for an email are numbered, and requests
and history carry the number of the code they are about. `ResetFlow` follows a reset from start to
end, `PasswordFlows` joins token, password and sessions.

**Accounts and hashes.** `UserStore` and `Accounts` cover registration, password check, change
and reset; `PasswordHash`, `Base64` and `Text` the PHC string with its base64 (section 4 of
RFC 4648, unpadded as section 3.2 allows) and decimal fields. Argon2id is a parameter.

Conventions: time is an integer number of nanoseconds since Go's zero time. Clock readings,
randomness and failing calls are parameters. Random token hashes and ids are never drawn twice
and are not empty; token hashes and emails stand for themselves, since SHA-256 is taken to be
injective. A Redis key is live strictly before its deadline; the in-memory stores count the
deadline itself as live, as their code does.

## Where code and documentation differ

The model follows the code.

- README.md:213 says that there is no window for stale cache entries. That holds for requests one
  at a time (`NeverStaleWhenSequential`) and fails when a login overlaps a LogoutAll
  (`StaleEntryArises`). Exactly: as long as cache deletes succeed, a step leaves an entry whose row is
  gone and that nobody is about to evict if and only if it caches a session that was removed while
  its request was on the way to cache it, and whose eviction is over (`OrphanedExactly`); without
  such a step nothing stale is left once all requests are answered (`NoStaleUnlessOvertaken`).
  Stale entries never matter for safety: `RedeemedAtMostOnce` and `LateRefreshFails` hold with them
  present, and `CacheIsTransparent` says when a refresh shows them.
- internal/service/auth/auth.go:655 deletes the reset token first so that it is used once. That
  holds as long as no reset reads the token while another has read and not yet deleted it
  (`UsedOnceWithoutOverlap`), and such a read is exactly the step that makes a second use possible
  (`SecondUseExactly`); `TokenUsedTwice` is a run in which it happens.
- A code is meant for one token. A failed delete of it is logged and ignored
  (internal/service/auth/auth.go:618-620), and reading and deleting it are separate calls, so one code
  can yield two tokens in two ways (`CodeUsedTwice`, `OverlapYieldsTwo`). `SecondTokenExactly` gives
  the steps that make a second token possible: reading the live code, given it back, while another
  verification has read it too and not yet tried to delete it; or failing to delete the matched
  code while it is live. How many attempts the code has left does not matter: a new code saved for
  the email renews them, also for a verification that has read the old one.
- README.md:35 announces a block after five wrong codes; the fifth attempt is refused before its
  comparison, so four are compared (`CodeBudget`).
- internal/lib/bruteforce/bruteforce.go:59 calls the window sliding; it is fixed by the first
  failure.
- internal/lib/bruteforce/bruteforce.go:151-156 forecasts from a count without looking at the end
  of its window. `FallbackForecast` gives the exact condition, `StaleCountMisleads` an instance.
- internal/lib/ratelimit/ratelimit.go:24 takes any window; counters of different windows are kept
  apart if and only if windows last a second or more (`CountersApartExactly`), and below half a
  second nothing is ever refused (`TinyWindowsNeverRefuse`).
- internal/interceptor/ratelimit.go:28 names two methods for the stricter limit; lines 17-24 list
  six.

## Model

| member | source | states |
|---|---|---|
| `SessionInvariant.StepKeeps` | internal/service/auth/auth.go:116-475 | every store or cache call, failing or not, and every tick or cache eviction keeps the invariant tying rows, cache entries, in-flight requests and issue history together; history only grows |
| `SessionInvariant.Reachable` | internal/service/auth/auth.go:116-475 | hence the invariant holds in every state of every interleaved run |
| `SessionInvariant.RunGrows` | internal/service/auth/auth.go:116-475 | along a run nothing issued is forgotten or changed, and a row appears only for a token not issued before |
| `SessionSafety.NeverRedeemedAfterRemoval` | internal/adapters/storage/postgres/session.go:82-111 | once any step has removed a row, its token is never stored again and never redeemed, in any interleaving |
| `SessionSafety.RedeemedAtMostOnce` | internal/service/auth/auth.go:320-327 | in every interleaving each refresh token is redeemed by at most one step |
| `SessionSafety.AnswersAreRedemptions` | internal/service/auth/auth.go:254-346 | a request is on its way to the answer "refreshed" for a token if and only if it made the step that redeemed the token |
| `SessionSafety.OneAnswerPerToken` | internal/service/auth/auth.go:254-346 | at most one request is ever answered with the successor of a given token |
| `SessionSafety.OneSessionPerLogin` | internal/service/auth/auth.go:308-335 | at any moment one login has at most one stored session, however often it was refreshed |
| `SessionSafety.CopiesAgreeWithHistory` | internal/service/auth/auth.go:751-759 | every row and every cache entry, stale or not, carries the session its token was issued with, and a rotation chain has one owner |
| `SessionSafety.LateRefreshFails` | internal/service/auth/auth.go:261-292 | a refresh that starts after its token's expiry never succeeds, whether cache or store answers, however long it is in flight |
| `SessionSafety.NoChainSurvives` | internal/service/auth/auth.go:524-531 | after a bulk delete, every later session of the user descends only from tokens issued after it, or through the kept session |
| `SessionSafety.OnlyLaterLoginsSurvive` | internal/service/auth/auth.go:393-401 | after LogoutAll or ResetPassword, each stored session of the user goes back to a login whose Create step came after the bulk delete |
| `SessionAnswers.EveryRequestTold` | internal/service/auth/auth.go:116-475 | in every interleaving every request has a past, from its beginning on, that accounts for where it is and what it answers |
| `SessionAnswers.RefreshInherits` | internal/service/auth/auth.go:303-316 | in every interleaving, the token that replaces another has its user, the device its request named at its beginning or else the other token's, and a full lifetime from one of its own calls on |
| `SessionAnswers.LoginStores` | internal/service/auth/auth.go:192-215 | in every interleaving, a login stores its own user and device with a full lifetime |
| `SessionAnswers.LogoutIsFinal` | internal/service/auth/auth.go:365-369 | once a logout has deleted an issued token, no later store holds it, no later step redeems it, and no other row was touched |
| `SessionAnswers.LoggedOutIsOut` | internal/service/auth/auth.go:350-380 | the answer to a logout means that its delete took place, for the token it was asked about at its beginning |
| `SessionAnswers.RevokeIsFinal` | internal/service/auth/auth.go:457-465 | RevokeSession removes for good the caller's own session with the id asked for and keeps every other row |
| `SessionAnswers.RefusalsAreJustified` | internal/service/auth/auth.go:254-475 | nobody is refused without a reason: Unauthenticated means that the token was not stored, or had expired, at a call of the request; NotFound that the caller had no such session; Internal that a call failed |
| `SessionLineage.NoBranching` | internal/adapters/storage/memory/session.go:81-101 | two tokens that go back to one login lie on one chain: rotation never branches |
| `SessionLineage.AncestorSpent` | internal/adapters/storage/memory/session.go:81-101 | every proper ancestor of an issued token has left the store, and its only child is on the chain |
| `SessionLineage.OneOwner` | internal/service/auth/auth.go:308-318 | all tokens of a chain belong to one user |
| `SessionSteps.LoginAlone` | internal/service/auth/auth.go:192-223 | Login's protocol steps taken without interruption leave the rows, the cache and the code of the service's Login |
| `SessionSteps.RefreshAlone` | internal/service/auth/auth.go:254-346 | likewise RefreshToken, on every path: cache hit, miss, expiry, replay and each failing call |
| `SessionSteps.LogoutAlone` | internal/service/auth/auth.go:350-380 | likewise Logout |
| `SessionSteps.RevokeAllAlone` | internal/service/auth/auth.go:384-412 | likewise the bulk revocations, with the number LogoutAll answers |
| `SessionSteps.RevokeAlone` | internal/service/auth/auth.go:448-475 | likewise RevokeSession |
| `SessionRefinement.ServiceRefinesProtocol` | internal/service/auth/auth.go:116-475 | every sequence of requests the service handles one after the other, whatever calls fail, is a run of the protocol that ends with the same rows and cache |
| `SessionOutcomes.LoginOutcome` | internal/service/auth/auth.go:192-223 | succeeds exactly if the token can be drawn and stored; user, device and expiry of the new row, its cache entry, and nothing else changed |
| `SessionOutcomes.RefreshSucceeds` | internal/service/auth/auth.go:261-327 | succeeds exactly if the token is stored and unexpired, its session can be read, and the new token can be drawn and stored; the code otherwise |
| `SessionOutcomes.RefreshStores` | internal/service/auth/auth.go:303-335 | the new row: user of the old one, device of the request or else of the old row, full lifetime; the old token is gone from table and cache |
| `SessionOutcomes.RefreshSpares` | internal/service/auth/auth.go:254-346 | all other tokens are untouched, and the token itself unless it is redeemed or expired |
| `SessionOutcomes.RefreshDropsExpired` | internal/service/auth/auth.go:281-287 | an expired token is refused and deleted from table and cache |
| `SessionOutcomes.LogoutOutcome` | internal/service/auth/auth.go:365-369 | OK exactly if the store deletes; the token is then neither stored nor cached, all others stay |
| `SessionOutcomes.RevokeAllOutcome` | internal/service/auth/auth.go:393-401 | the user's sessions go except the kept one, with their cache entries; all others stay |
| `SessionOutcomes.RevokeOutcome` | internal/service/auth/auth.go:457-465 | OK exactly if the caller owns a session with this id, which then goes; otherwise NotFound and nothing changes |
| `SessionOutcomes.RevokeSparesOthers` | internal/service/auth/auth.go:457-461 | no session of another user is lost |
| `SessionProgress.CallAdvances` | internal/service/auth/auth.go:116-475 | every call, whatever the environment decides, brings its request closer to its answer |
| `SessionProgress.CallsAreBounded` | internal/service/auth/auth.go:116-475 | in every interleaving a request makes at most eight calls, plus one for every row its bulk delete listed |
| `SessionProgress.ListsRevoked` | internal/service/auth/auth.go:393-401 | those are the rows the bulk delete revoked |
| `SessionCoherence.NeverStaleWhenSequential` | internal/service/auth/auth.go:448-475 | with one request at a time and cache deletes succeeding, every cache key is a stored session with the same contents, whatever store calls failed |
| `SessionCoherence.MirroredWhenSequential` | internal/service/auth/auth.go:751-771 | with no cache failures either, every unexpired stored session is also cached until it expires |
| `SessionCoherence.CacheIsTransparent` | internal/service/auth/auth.go:261-327 | with any cache agreeing with the history and whatever calls fail, the exact conditions under which a refresh answers the same code, and leaves the same rows, as with an empty cache |
| `SessionCoherence.CacheMakesNoDifference` | internal/service/auth/auth.go:261-327 | with the store answering and token generation succeeding, code and rows never depend on the cache |
| `SessionCoherence.FailureShowsStaleHit` | internal/service/auth/auth.go:290-327 | a failing generation or rotation tells a stale hit apart: Internal with it, Unauthenticated without |
| `SessionCoherence.RevokeAllCount` | internal/service/auth/auth.go:411 | LogoutAll's count is the drop in stored sessions, below 2^31 |
| `StaleEntries.StaleEntryArises` | internal/service/auth/auth.go:212-223 | for every session there is a run without any failed call after which all requests are answered and the cache serves a session that is not stored |
| `SessionOrphans.OrphanedExactly` | internal/service/auth/auth.go:751-771 | at every step of every run, with its cache delete succeeding, an entry loses its row and every pending eviction if and only if the step is an overtaken cache write |
| `SessionOrphans.NoStaleUnlessOvertaken` | internal/service/auth/auth.go:751-771 | in every interleaving whose cache deletes succeed, without an overtaken write of a token its cache entry is stored or about to be evicted, and stored once all requests are answered |
| `SessionService.AuthService.Login` | internal/service/auth/auth.go:192-223 | new rows and cache, and the code, for every combination of failing calls |
| `SessionService.AuthService.RefreshToken` | internal/service/auth/auth.go:254-346 | likewise, through cache hit, store read, expiry check, rotation and cache update |
| `SessionService.AuthService.Logout` | internal/service/auth/auth.go:350-380 | likewise; the row is deleted whatever the cache said |
| `SessionService.AuthService.LogoutAll` | internal/service/auth/auth.go:384-412 | all rows of the user and their cache entries go; the count is their number as an int32 |
| `SessionService.AuthService.RevokeSession` | internal/service/auth/auth.go:448-475 | exactly the row with this id and owner goes, NotFound if there is none |
| `SessionService.AuthService.RevokeOthers` | internal/service/auth/auth.go:524-531 | all rows of the user but the kept one go, with their cache entries; a store failure changes nothing |
| `SessionService.AuthService.CacheSession` | internal/service/auth/auth.go:751-759 | nothing is cached without time to live; else the deadline is the time of the write plus the time measured before it |
| `SessionService.AuthService.DeleteSessionsFromCache` | internal/service/auth/auth.go:399-401 | the loop removes exactly the listed keys whose delete succeeds |
| `Sessions.RevocationIsExact` | internal/adapters/storage/postgres/session.go:132-159 | a bulk delete removes exactly the listed rows, other users keep theirs, the kept row survives if and only if it was the user's |
| `Sessions.RotationConserves` | internal/adapters/storage/postgres/session.go:82-111 | rotation within one owner leaves every user's session count unchanged |
| `Sessions.MatchingIsUnique` | internal/adapters/storage/postgres/session.go:58-69 | at most one row matches an id and owner, so one hash is returned |
| `MemorySessionStore.SessionStore.constructor` | internal/adapters/storage/memory/session.go:23-28 | a new store is empty and its objects are its own |
| `MemorySessionStore.SessionStore.Create` | internal/adapters/storage/memory/session.go:30-43 | inserts the row; the stored object is a copy that no caller holds; id and timestamps are filled in |
| `MemorySessionStore.SessionStore.GetByTokenHash` | internal/adapters/storage/memory/session.go:45-55 | returns a fresh copy of the row if and only if there is one |
| `MemorySessionStore.SessionStore.DeleteByID` | internal/adapters/storage/memory/session.go:57-68 | deletes what the SQL statement deletes and returns its hash, from both maps |
| `MemorySessionStore.SessionStore.DeleteByTokenHash` | internal/adapters/storage/memory/session.go:70-78 | deletes the row, if any, from both maps |
| `MemorySessionStore.SessionStore.RotateToken` | internal/adapters/storage/memory/session.go:81-101 | replaces the row if and only if the spent hash is stored; otherwise nothing changes |
| `MemorySessionStore.SessionStore.DeleteAllByUserIDExcept` | internal/adapters/storage/memory/session.go:117-129 | deleting while ranging over the map removes exactly the SQL rows, and lists each hash once |
| `MemorySessionStore.SessionStore.DeleteAllByUserID` | internal/adapters/storage/memory/session.go:103-115 | likewise for all rows of the user |
| `MemorySessionStore.SessionStore.RowsHaveUniqueIds` | internal/adapters/storage/memory/session.go:13-21 | the two maps sharing objects make ids a key of the rows |
| `SessionCache.Cache.Get` | internal/adapters/cache/memory/cache.go:36-46 | answers only live entries and evicts an expired one |
| `BruteForceBound.GuessesAreBounded` | internal/service/auth/auth.go:129-179 | within time T of the first failure at most maxAttempts * (T / m + 1) passwords are checked for an email, m the shorter of whole-second window and lockout, whatever the attempts on it and on others |
| `BruteForceBound.BoundIsTight` | internal/lib/bruteforce/bruteforce.go:104-127 | the bound is reached exactly, for every n, when the lockout is no longer than the window |
| `BruteForceOverlap.OverlapsAreBounded` | internal/service/auth/auth.go:129-179 | with at most n logins in flight for an email, overlapping between any two of their Redis calls, at most ((Cap - 1) * (n + 1) + n) * (T / m + 1) passwords are checked within time T |
| `BruteForceOverlap.OverlapsExceed` | internal/service/auth/auth.go:129-141 | n logins that arrive together all have their password checked, for every n |
| `BruteForceFallback.FallbackClosedForm` | internal/lib/bruteforce/bruteforce.go:32-44 | the k-th failure of a window locks if and only if the cap divides k; the stored count is k modulo the cap |
| `BruteForceFallback.LockedUntilClosedForm` | internal/lib/bruteforce/bruteforce.go:38-41 | the lock ends one lockout after the last failure that locked |
| `BruteForceFallback.LockNeverShortened` | internal/lib/bruteforce/bruteforce.go:38-41 | with a clock that does not run backwards, a further failure never shortens the lock |
| `BruteForceFallback.Forecast` | internal/lib/bruteforce/bruteforce.go:140-160 | with Redis up, AttemptsRemaining = r > 0 means that of the next r failures in the window exactly the r-th locks |
| `BruteForceFallback.ForecastExactly` | internal/lib/bruteforce/bruteforce.go:140-160 | below the threshold the answer is r if and only if of r failures in the window the last one, and no other, locks |
| `BruteForceFallback.NoneLeftExactly` | internal/lib/bruteforce/bruteforce.go:140-160 | the answer is 0 if and only if the email is locked or its running counter has reached the threshold |
| `BruteForceFallback.RemainingAfter` | internal/lib/bruteforce/bruteforce.go:146-159 | after k failures in the window all but k attempts remain, and all of them after none |
| `BruteForceFallback.RemainingAfterReset` | internal/lib/bruteforce/bruteforce.go:131-132 | a reset gives all attempts back |
| `BruteForceFallback.RecordRemainingAfter` | internal/lib/bruteforce/bruteforce.go:151-156 | the answer of the fallback in closed form, after any sequence of failures |
| `BruteForceFallback.LockFailsExactly` | internal/lib/bruteforce/bruteforce.go:117-124 | an error is reported if and only if the threshold is reached and the lock cannot be written |
| `BruteForceFallback.UnwrittenLockIsRetried` | internal/lib/bruteforce/bruteforce.go:117-124 | the next failure of the window then locks |
| `BruteForceFallback.FallbackForecast` | internal/lib/bruteforce/bruteforce.go:151-156 | with Redis down, this holds if and only if the count is zero or the window it belongs to is still open |
| `BruteForceFallback.StaleCountMisleads` | internal/lib/bruteforce/bruteforce.go:151-156 | under every policy that allows a failure, a count reached by failures of a past window announces a lock that does not come |
| `BruteForce.KeysApart` | internal/lib/bruteforce/bruteforce.go:15-18 | counter and lock keys of all emails are distinct |
| `BruteForce.LocalEntry.RecordFailure` | internal/lib/bruteforce/bruteforce.go:32-44 | new record and answer of the in-process fallback |
| `BruteForce.Guard.IsLocked` | internal/lib/bruteforce/bruteforce.go:77-88 | the lock key decides, or the local record when Redis is down; no record changes |
| `BruteForce.Guard.RecordFailure` | internal/lib/bruteforce/bruteforce.go:104-127 | counts in Redis, or in this email's local record only; locking replaces the counter by the lock; a lock that cannot be written is an error and leaves the counter, a failed delete is ignored |
| `BruteForce.Guard.Reset` | internal/lib/bruteforce/bruteforce.go:131-136 | clears the email's keys and local record and nothing else |
| `LoginGuard.LoginService.Admit` | internal/service/auth/auth.go:129-161 | who is turned away before a guess counts, and with which code; a locked email before its password is looked at |
| `LoginGuard.LoginService.Authenticate` | internal/service/auth/auth.go:116-183 | OK exactly for the password set most recently of an email that is not locked, with all attempts given back; a wrong password is counted as the guess bound assumes, an unknown email is not |
| `BruteForce.Guard.AttemptsRemaining` | internal/lib/bruteforce/bruteforce.go:140-160 | answers what the forecasts are about, in either mode, and changes no record |
| `Redis.Server.IncrExpire` | internal/lib/bruteforce/bruteforce.go:93-98 | counts the live value up and sets a deadline on the first increment only |
| `RateLimit.Limiter.Allow` | internal/lib/ratelimit/ratelimit.go:45-58 | counter and verdict, failing open when Redis does |
| `RateLimit.KeysApart` | internal/lib/ratelimit/ratelimit.go:46-47 | rendered keys are equal if and only if key and window start are, even for keys with colons |
| `RateLimit.CountersApartExactly` | internal/lib/ratelimit/ratelimit.go:46 | different aligned windows have different rendered starts if and only if windows last a second or more |
| `RateLimit.TtlCovers` | internal/lib/ratelimit/ratelimit.go:49-50 | a counter's deadline lies beyond the end of its window and at most two windows ahead |
| `RateLimit.TinyWindowsNeverRefuse` | internal/lib/ratelimit/ratelimit.go:49-57 | with windows below half a second every call is allowed and leaves no counter |
| `RateLimit.AllowedExactly` | internal/lib/ratelimit/ratelimit.go:45-58 | a call is allowed if and only if fewer than limit calls for its key reached Redis before it in its aligned window |
| `RateLimit.WindowTotal` | internal/lib/ratelimit/ratelimit.go:14-19 | without failures exactly min(n, limit) of the n calls per key and window are allowed; with failures no more |
| `RateLimit.TwiceTheLimit` | internal/lib/ratelimit/ratelimit.go:14-19 | no interval of one window length sees more than twice the limit |
| `Interceptor.RateLimiter.Handle` | internal/interceptor/ratelimit.go:31-61 | the two checks in order, each failing open, the second for credential methods only |
| `Interceptor.GlobalBound` | internal/interceptor/ratelimit.go:41-47 | per IP and window, handled requests are at most the limit plus the failed checks |
| `Interceptor.SensitiveBound` | internal/interceptor/ratelimit.go:49-57 | likewise for credential methods and the login limiter |
| `Interceptor.LimitsHold` | internal/interceptor/ratelimit.go:31-61 | both bounds together, the counters not disturbing one another |
| `InterceptorExact.GlobalExactly` | internal/interceptor/ratelimit.go:41-47 | the global check refuses if and only if it is answered and at least limit requests of the IP reached Redis before in the window |
| `InterceptorExact.HandledExactly` | internal/interceptor/ratelimit.go:31-61 | a request is handled if and only if neither limit is used up for it |
| `InterceptorExact.HandledTotal` | internal/interceptor/ratelimit.go:41-47 | without failures exactly min(n, limit) of n requests to other methods are handled per IP and window |
| `InterceptorExact.SensitiveTotal` | internal/interceptor/ratelimit.go:49-57 | likewise of the credential requests that pass the global check |
| `InterceptorExact.OutageRefusesNobody` | internal/interceptor/ratelimit.go:42-43 | failed checks let a request through, whatever was counted before |
| `Interceptor.ExtractIP` | internal/interceptor/ratelimit.go:73-85 | the trimmed entry that is not blank and after which all entries are blank, else the peer |
| `Interceptor.ProxyDecides` | internal/interceptor/ratelimit.go:63-72 | what the proxy appended decides, whatever the client put before it |
| `ResetSafety.CodeBudget` | internal/service/auth/auth.go:591-616 | in every interleaving, deletes failing or not, an email's code comparisons number at most four times the codes saved for it |
| `ResetSafety.AlwaysInTime` | internal/adapters/cache/redis/reset.go:70-79 | no stored code outlives its save by more than fifteen minutes, however often it is counted |
| `ResetSafety.ComparedInTime` | internal/service/auth/auth.go:591-616 | a code is compared only within fifteen minutes of the latest save |
| `ResetStore.IncrNeverExtends` | internal/adapters/cache/redis/reset.go:70-79 | an increment counts one attempt and never moves the deadline later, nor earlier by a millisecond or more |
| `ResetProvenance.ChangeIsProven` | internal/service/auth/auth.go:646-670 | in every interleaving, a reset password was changed with a token issued to that user after a match of a code, and that very code had been saved for that user and email |
| `ResetOneCode.TokensAreVerified` | internal/service/auth/auth.go:614-633 | in every interleaving the tokens issued for a code never outnumber the matches of it |
| `ResetOneCode.OneTokenPerCode` | internal/service/auth/auth.go:591-633 | each saved code yields at most one token, unless a verification reads the live code while another has read it and not yet tried to delete it, or a delete of the matched, live code fails |
| `ResetOneCode.SavesAreNumbered` | internal/service/auth/auth.go:566 | the codes of an email are numbered from one in the order of their saves |
| `ResetOneCode.NoMoreTokensThanCodes` | internal/service/auth/auth.go:591-633 | under the same condition on all its codes, an email never gets more tokens than codes |
| `ResetSecondToken.SecondTokenExactly` | internal/service/auth/auth.go:591-620 | as long as no step of these two kinds has occurred for a code, a step makes a second token for it possible if and only if it is of one of these two kinds |
| `ResetSecondToken.CodeUsedTwice` | internal/service/auth/auth.go:618-620 | a failed delete lets one code yield two tokens, one request after the other |
| `ResetSecondToken.OverlapYieldsTwo` | internal/service/auth/auth.go:591-620 | two overlapping verifications get two tokens from one code without any failing call |
| `ResetOneUse.UsedOnceWithoutOverlap` | internal/service/auth/auth.go:646-670 | if no reset reads a token while another has read it and not yet deleted it, the token changes a password at most once, whatever else interleaves and fails |
| `ResetOneUse.SecondUseExactly` | internal/service/auth/auth.go:646-659 | as long as no read has overlapped, a step makes a second use of the token possible if and only if it is an overlapping read of the live token |
| `ResetOneUse.TokenUsedTwice` | internal/service/auth/auth.go:646-670 | for every token a run exists in which it changes the password twice |
| `ResetService.TokenIssuedExactly` | internal/service/auth/auth.go:591-633 | alone, a verification issues a token if and only if a live code with attempts left is given back and read, count and save succeed; the code is then gone if its delete succeeded |
| `ResetService.InternalExactly` | internal/service/auth/auth.go:591-631 | Internal is the answer if and only if a store call that was reached failed, other than the delete |
| `ResetFlow.CodeWorksExactly` | internal/service/auth/auth.go:543-634 | after any number of wrong guesses the right code yields a token only if fewer than four came before and its fifteen minutes are not over; and it does so then, in memory to the last moment, in Redis up to the milliseconds that counting costs |
| `ResetFlow.TokenWorksExactly` | internal/service/auth/auth.go:646-670 | a token changes its user's password exactly within its fifteen minutes, and is refused afterwards |
| `ResetService.ResetService.RequestPasswordReset` | internal/service/auth/auth.go:543-577 | does the protocol's save for a known email, nothing for an unknown one, with the same answer; failing lookup, generation and save answer Internal |
| `ResetService.ResetService.VerifyResetCode` | internal/service/auth/auth.go:583-634 | the imperative code does what the protocol's steps do, for every combination of failing calls |
| `ResetService.ResetService.RedeemToken` | internal/service/auth/auth.go:646-659 | a live token gives its user and is gone, if read and delete succeed; the code otherwise |
| `ResetStore.MemoryResetStore.GetOTP` | internal/adapters/cache/memory/reset.go:47-57 | a live code or none; an expired one is removed |
| `ResetStore.MemoryResetStore.IncrOTPAttempts` | internal/adapters/cache/memory/reset.go:59-71 | counts one attempt against a live code, keeping its deadline |
| `ResetStore.MemoryResetStore.GetResetToken` | internal/adapters/cache/memory/reset.go:90-100 | a live token or none; an expired one is removed |
| `Accounts.AccountService.Register` | internal/service/auth/auth.go:76-112 | a new email gets its password; a taken one is refused and keeps its own; failing hash and store answer Internal |
| `Accounts.AccountService.CheckPassword` | internal/service/auth/auth.go:143-161 | the password check of Login passes if and only if the password derives the key of the one set most recently by registration, change or reset; an unknown email has none |
| `Accounts.AccountService.ChangePassword` | internal/service/auth/auth.go:491-517 | the exact code: weak new password, wrong current one, unknown id, success; no other account changes |
| `Accounts.AccountService.ResetPassword` | internal/service/auth/auth.go:661-670 | sets the password of the token's user and of nobody else, and fails for an id nobody owns |
| `PasswordFlows.PasswordService.ResetPassword` | internal/service/auth/auth.go:638-686 | a successful reset has used up its token, set the password of its user and ended all their sessions; without a live token nothing changes |
| `PasswordFlows.PasswordService.ChangePassword` | internal/service/auth/auth.go:479-539 | a successful change has set the password and ended all other sessions; with a wrong current password nothing changes |
| `UserStore.Users.Create` | internal/adapters/storage/memory/user.go:29-46 | refuses a taken email, else enters one object in both maps |
| `UserStore.Users.GetByEmail` | internal/adapters/storage/memory/user.go:48-57 | the user of this email |
| `UserStore.Users.GetByID` | internal/adapters/storage/memory/user.go:59-68 | the same record as its email shows |
| `UserStore.Users.UpdatePasswordHash` | internal/adapters/storage/memory/user.go:70-80 | the change through one map shows in both; ids are unique |
| `PasswordHash.ParseRendered` | internal/lib/password/password.go:22-61 | the rendered string splits into six parts with the format's first three, and parsing recovers every parameter, salt and hash; parameters that do not fit are an error |
| `PasswordHash.ParseFields` | internal/lib/password/password.go:38-61 | parsing depends on neither the algorithm nor the version field |
| `PasswordHash.DefaultText` | internal/lib/password/password.go:13-34 | the parameter field of every hash the service makes |
| `PasswordHash.VerifyErrorsExactly` | internal/lib/password/password.go:38-57 | Verify fails if and only if there are not six parts, or the parameters do not scan, or salt or hash is not base64 |
| `PasswordHash.VerifyHashed` | internal/lib/password/password.go:22-62 | a password passes against the hash of another if and only if both derive the same key; its own always passes |
| `Base64.RoundTrip` | internal/lib/password/password.go:31-34 | decoding recovers every byte string |
| `Base64.GroupKeepsBits` | internal/lib/password/password.go:30-31 | each three bytes become the four symbols for the same 24 bits |
| `Base64.Vectors` | internal/lib/password/password.go:30-31 | examples of the standard alphabet and of short last groups |
| `Base64.DecodesExactly` | internal/lib/password/password.go:49-57 | a string decodes if and only if, line breaks apart, it has only symbols and none left over |
| `Text.DigitsRoundTrip` | internal/lib/password/password.go:44-47 | reading back a rendered number gives the number |
| `Text.DecimalInjective` | internal/lib/ratelimit/ratelimit.go:47 | different integers render differently |
| `Text.SplitExactly` | internal/lib/password/password.go:39 | the parts contain no separator and joined give the string back |
| `Text.TrimExactly` | internal/interceptor/ratelimit.go:78 | trimming takes the blanks off both ends and nothing else |

## Left out

- ListByUserID and ListSessions, with last-used order: they would only add easy members; `lastUsedAt` is kept, but only its updates are stated.
- The email copied into sessions and cache entries, user agent and IP address of sessions.
- JWT signing and parsing; access tokens and the caller's identity are parameters.
- A login whose access token cannot be signed, and a service without a guard.
- SHA-256 and argon2id themselves, including argon2's panic on zero iterations or parallelism.
- Audit log, hooks, logging, input validation rules and the format of codes; whether input is valid is a parameter.
- extractClientInfo: a backward scan like that of extractIP.
- PostgreSQL isolation below statement level, commits of unknown outcome and errors while scanning returned rows.
- MemorySessionStore.SessionStore.Create: requires a hash and an id that are not stored yet; they are random, the SQL schema rejects a repeated one, the map would overwrite.
- MemorySessionStore.SessionStore.RotateToken: likewise.
- SessionAnswers.LogoutIsFinal: for a token that was issued when the logout deleted it; a hash that was never drawn before may still be drawn later.
- LoginGuard.LoginService.Authenticate: the case of a failing count, lock write or delete is stated by Punish alone.
- Sub-millisecond rounding of the Redis lock's time to live.
- BruteForceBound.GuessesAreBounded: one login at a time; overlapping ones are bounded by BruteForceOverlap.OverlapsAreBounded. Runs that switch between Redis and the fallback are not counted in either.
- BruteForceOverlap.OverlapsAreBounded: no Redis call fails; the bound is not claimed to be tight.
- RateLimit.TtlCovers: windows of a second or more; for shorter ones counters are shared or lost (RateLimit.CountersApartExactly, RateLimit.TinyWindowsNeverRefuse).
- RateLimit.AllowedExactly: windows of a second or more.
- RateLimit.WindowTotal: windows of a second or more.
- RateLimit.TwiceTheLimit: windows of a second or more.
- Interceptor.GlobalBound: windows of a second or more, and an IP that does not start with "auth:", which would share counters of the login limiter.
- Interceptor.SensitiveBound: likewise, for all IPs of the run.
- Interceptor.LimitsHold: likewise.
- Accounts.AccountService.CheckPassword: one request at a time; equality of passwords is stated as equality of derived keys, since no fixed-length key derivation is injective.
- HTTP gateway, configuration, migrations, server start and stop.
