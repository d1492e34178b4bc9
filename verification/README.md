# Verification of grok-auth-proxy

A Dafny model of the three stateful parts of grok-auth-proxy, with proofs about whole runs.

**Credential manager.** `RefreshProtocol` is the manager as a step machine: any number of goroutines
interleave `GetAccessToken`, `ForceRefresh` and the proactive tick, one step per block under `mu` or
`refreshMu` and per call to the outside, with a monotone clock, a provider of rotating single-use refresh
tokens (the refresh grant of section 6 of RFC 6749), the DB row, auth.json, and reloads at any time.
`RefreshSafety` holds the invariant, `RefreshTheorems`, `RefreshSelection` and `RefreshLiveness` the theorems,
`RefreshTicking` and `RefreshLimits` their exact conditions, with runs in which they fail.
`ManagerModel.Manager` is the same object for one goroutine at a time; `RefreshSolo` proves that its refresh is
one schedule of the machine. `AuthFile` is the atomic write of auth.json, system call by system call.

**Key cache and audit queue.** `KeyStore.Store` is the cache in front of the api_keys table;
`RevocationProtocol` interleaves the steps of validation and revocation over any number of Store instances.
`AuditQueue` is the bounded queue with its workers and the drain on Close.

**Forwarding.** `Proxy` and `StreamTee` are the handler with its retry on 401, the relay of the answer and
the audit row, composed with the credential manager.

Time is an integer of nanoseconds since Go's zero time, so that 0 is the zero `time.Time`. Every answer from
outside (network, database, disk, clock readings, map iteration order) is a parameter or a free choice.
The SHA-256 lookup is an arbitrary injective function, bcrypt matches exactly the plaintext it was given, and
the JSON of a file map is a constructor that reads back as that map.

## Assumptions

- The provider grants only its current refresh token and rotates to one it never issued before. A request that
  fails spends nothing, except in the step `Lose`: granted, but the answer is lost or unusable. The theorems
  say what such a step costs.
- `expires_in` is small enough for `time.Duration`, and the clock never goes back.
- `RefreshLiveness` assumes one ticker whose ticks start at most `every` apart and whose refreshes succeed within
  `delay` (`Pace`, `Prompt`). Getters and forced refreshes overlap, take any time and may fail.
- The order of reloads and refreshes is free; a theorem that needs no reload says so with `NoReload`.

## Where the code differs from what it says

- auth.go:410 says that the tick refreshes within twice the skew of expiry. The test under `refreshMu`
  (auth.go:455) overrules it: only a token within once the skew is refreshed. Hence the token survives exactly
  if the spacing of the ticks and the delay of one are together within the skew (`TickingKeepsAliveIff`).
- Between reading the clock for the new expiry and storing the entry (auth.go:512-519) a tick can read the old
  expiry. If that may happen, no spacing of the ticks keeps every token alive (`TickingKeepsAliveIff`).
- docs/API.md:43 says that revoked keys are rejected. A validation that has read the row before the revocation
  caches the key after the purge, so a revoked key is accepted for up to 30 s more, also by the instance that
  revoked it (`RevokedKeyAcceptedIff`), exactly if such a validation overlaps the purge there (`PurgeIsFinalIff`).
- store.go:37-38 throttles `last_used_at` writes to one in 60 s. Re-caching resets the throttle, so the 60 s test
  never decides: a key is written again exactly when its newest write is more than the 30 s cache lifetime old
  (`UseAgain`, `UseTwice`).
- Restart stability fails after a forced refresh that shortens the selected entry's life below a sibling's
  (`ForcedRefreshChangesTheRestart`); `RestartAfterCommitIff` is the exact condition.
- With a read-only auth.json a reload puts back a spent refresh token, exactly when the provider has rotated since
  the load (`ReloadOfReadOnlyFileIff`, `ReloadRestoresSpentToken`).
- A reload that changes the selected key during a refresh leaves `fileData[mapKey]` and `entry` apart
  (`CommitCoherentIff`, `KeyChangeBreaksCoherence`).
- An audit row queued after the last worker has left is never written (`AtClose`, `LateRowIsStranded`).
- The audit row has another status than the client got exactly if the last pass was sent and the upstream failed
  before the first byte with no status 502 of its own: the client gets 502, the row 0 or the upstream's status
  (`Handle`, `UnseenFailure`).

## Model

| member | source | states |
|---|---|---|
| RefreshSafety.StepKeepsInv | internal/auth/auth.go:345-559 | every step of every goroutine other than a reload keeps the protocol invariant: lock ownership, snapshot equal to memory under refreshMu, stored token in step with the provider, replicas in step with the snapshots |
| RefreshTheorems.SingleUseOfRefreshTokens | internal/auth/auth.go:78-84 | over all runs without reload: at most one token request in flight, the token on the wire is never a spent one unless an answer was lost, rotating grants spend pairwise distinct tokens, and with refreshMu free the stored token is the provider's current one iff no answer was lost |
| RefreshTheorems.OneRefreshAtATime | internal/auth/auth.go:444-445 | in every run, reloads included, exactly the owner of refreshMu is between its lock and unlock, so there is one refresh, one POST and one writer of DB and file at a time |
| RefreshTheorems.RefreshMuIsReleased | internal/auth/auth.go:444-445 | in every run in which one goroutine holds refreshMu throughout, however the others and reloads interleave, it takes at most eight steps and can always take the next, so the ninth releases the lock on every outcome |
| RefreshTheorems.ServedTokensAreLive | internal/auth/auth.go:345-370 | every token GetAccessToken returns without error has unknown expiry or expires after an instant of that call, including the old token served after a failed refresh; without a refresh it is only returned with the skew left |
| RefreshTheorems.UnforcedGrantsAreSpaced | internal/auth/auth.go:455-459 | however many callers race, an unforced token request is sent no earlier than the previous grant plus its lifetime minus the skew |
| RefreshTheorems.GrantsPerWindow | internal/auth/auth.go:423-426 | without forced refreshes and with lifetimes of at least L > skew, a window of length w holds n consecutive grants only if (n - 1) * (L - skew) <= w |
| RefreshTheorems.DurableOrder | internal/auth/auth.go:518-559 | over all runs, reloads included: what DB and file hold is a snapshot some refresh took, in refresh order and never an earlier one than before |
| RefreshTheorems.CopiesAgreeAtRest | internal/auth/auth.go:528-544 | without reload, with refreshMu free the DB, and a writable file, equal memory if their last write succeeded |
| RefreshTheorems.LostIffLosesAnswer | internal/auth/auth.go:487-505 | the provider and the manager part exactly when a granted answer does not arrive |
| RefreshSelection.MemoryStaysCoherent | internal/auth/auth.go:270-275 | fileData[mapKey] == entry in every reachable state, reloads included, provided no reload that overlaps a refresh changes the selected key |
| RefreshSelection.CommitCoherentIff | internal/auth/auth.go:518-523 | a commit keeps the triple coherent iff its snapshot key is still the selected one or the entry is the same |
| RefreshSelection.RestartSelectsTheSameEntry | internal/auth/auth.go:312-328 | without account filter, over unforced refreshes with lifetime above the skew: in every state a restart from any refresh snapshot in DB or file can and will select the key of the load for every map order, from a synced copy at rest the same entry; the memory image selects entries that expire with it |
| RefreshSelection.RestartAfterCommitIff | internal/auth/auth.go:506-523 | after any refresh a restart is sure to select the refreshed entry iff no other usable entry lasts as long as the new expiry |
| Credentials.SelectsOnlyIff | internal/auth/auth.go:300-328 | selectEntry picks one key for every iteration order iff that key's expiry strictly dominates |
| RefreshLiveness.TokenNeverDiesWhileTicking | internal/auth/auth.go:377-421 | from the first tick on a token that outlasts a tick's delay, in any state between two refreshes: the token is live at every later instant and between ticks outlasts the last one by more than the skew, while getters and forced refreshes overlap, take time and fail |
| RefreshTicking.TickingKeepsAliveIff | internal/auth/auth.go:401-421 | ticks `every` apart that take up to `delay` keep every live token alive in every prompt run iff every + delay <= skew; if a tick may read the expiry that a refresh is about to replace, iff every = 0 |
| RefreshTicking.TickLeavesTokenAlone | internal/auth/auth.go:410-413 | a token with more than one skew left passes the tick unrefreshed although twice the skew is the tick's own margin |
| RefreshTicking.StaleTicksLetTokenDie | internal/auth/auth.go:512-519 | for every spacing, a run in which ticks skip on the old expiry while a shorter new entry waits to be stored, until it is dead |
| RefreshLimits.ReloadOfReadOnlyFileIff | internal/auth/auth.go:534-536 | on a read-only file a reload restores a good refresh token iff no answer since the load brought a new one and none was lost; otherwise a spent one |
| RefreshLimits.ReloadRestoresSpentToken | internal/auth/auth.go:534-536 | a run from a fresh manager after which the reload restores a spent refresh token |
| RefreshLimits.KeyChangeBreaksCoherence | internal/auth/auth.go:272-274 | a run from a fresh manager in which a reload during a refresh changes the selected key and fileData[mapKey] and entry stay apart |
| RefreshLimits.ForcedRefreshChangesTheRestart | internal/auth/auth.go:373-375 | a reachable state in which a forced refresh makes the restart select another entry |
| RefreshSolo.SequentialRefreshIsASchedule | internal/auth/auth.go:441-559 | the sequential refresh of Manager is one schedule of the step machine: same memory, clock, DB and file |
| RefreshSolo.SequentialGetIsASchedule | internal/auth/auth.go:345-370 | so is the sequential GetAccessToken: a token with the skew left is served at once; else the refreshed one or, after a failure, the old one until it expires |
| Credentials.SelectEntry | internal/auth/auth.go:300-328 | for every iteration order the result is an entry whose key includes the account, or a usable entry that none outlasts; an error iff there is none |
| Credentials.ContainsIff | internal/auth/auth.go:303 | the substring test holds iff the key is the account with something before and after it |
| Credentials.BlankIff | internal/auth/auth.go:315 | the blank test is that trimming white space on both sides leaves nothing |
| ManagerModel.Manager.constructor | internal/auth/auth.go:110-143 | defaults of skew and issuer |
| ManagerModel.Manager.Start | internal/auth/auth.go:149-160 | the DB blob wins over the file, is materialised on a writable path, and what is loaded is that blob or that file |
| ManagerModel.Manager.Reload | internal/auth/auth.go:247-253 | a failed reload changes nothing; a successful one takes the file's map and a selectable entry |
| ManagerModel.Manager.LoadBytes | internal/auth/auth.go:255-286 | a failed load changes nothing; a successful one replaces map, key and entry together; when each error is returned |
| ManagerModel.Manager.DiscoverTokenEndpoint | internal/auth/auth.go:597-644 | cached, discovered or fallback endpoint, which is cached; none iff nothing is cached and the issuer makes no URL |
| ManagerModel.Manager.Refresh | internal/auth/auth.go:430-559 | a refresh that is due and granted posts once and renews key, refresh token and expiry under the selected key, keeping all other fields, in memory, DB and file; else the triple, DB and file stay; when a request is posted, and with which URL, refresh token and client id |
| ManagerModel.RefreshTwice | internal/auth/auth.go:506-523 | of two refreshes the second posts the same client id and the refresh token the first one brought, or the same again |
| ManagerModel.RefreshThenRestart | internal/auth/auth.go:518-559 | a restart from the DB row that a refresh wrote loads the same file map and a token lasting at least as long, and the very same entry if no other usable one lasts as long |
| RefreshRules.RenewedIff | internal/auth/auth.go:455-516 | a refresh renews iff it is forced or due, has a refresh token and an endpoint, and gets a 2xx answer that parses with an access token; what the new entry keeps and changes; when a request is posted |
| RefreshRules.ErrorIff | internal/auth/auth.go:461-504 | which error each failing refresh ends with |
| RefreshRules.TokenURLIs | internal/auth/auth.go:597-644 | the URL is the cached one, the discovered one, or the issuer without trailing slashes plus the common path |
| ManagerModel.Manager.ForceRefresh | internal/auth/auth.go:372-375 | succeeds iff there is a refresh token, an endpoint and a grant, whatever the expiry; success means one more token request and the renewed entry |
| ManagerModel.Manager.GetAccessToken | internal/auth/auth.go:345-370 | with the skew left the stored token is served without a request; else the granted one after one request, or after a failure the old one iff it has not expired; a served token is live in the call |
| ManagerModel.Manager.ProactiveTick | internal/auth/auth.go:401-421 | a tick posts iff the expiry is known, within twice the skew at its own test and once the skew at the refresh's, and a request can be made; a tick that does not post leaves more than the skew |
| AuthFile.Disk.WriteAuthFileAtomic | internal/auth/auth.go:646-680 | success leaves the new contents and no temp file, a handled error the old ones and (if remove works) no temp file, else what had been written of it; the target is whole between any two system calls |
| AuthFile.CrashFindsOldOrNew | internal/auth/auth.go:668-677 | a crash at any instant of the write, losing any directory updates and all that was not synced, leaves the target entirely old or entirely new and loses no other file |
| AuthFile.WriteAgain | internal/auth/auth.go:646-680 | over successive writes a crash at any time finds one of the versions written so far, entirely |
| KeyStore.Store.ValidatePlaintext | internal/store/store.go:343-376 | accepts exactly what the uncached row-and-bcrypt check accepts, the rows of that plaintext that are enabled and not revoked, with the same key stamped with this use; only misses write to the cache and schedule a last-used write; what is cached |
| KeyStore.Store.CacheGet | internal/store/store.go:378-392 | answers an entry up to and including its expiry instant and deletes it afterwards |
| KeyStore.HitIff | internal/store/store.go:416-435 | the cache answers for a live key exactly until its newest last-used write is a cache lifetime old |
| KeyStore.Store.InvalidateCacheByID | internal/store/store.go:406-414 | exactly the entries of that key are gone |
| KeyStore.Store.RevokeKey | internal/store/store.go:324-338 | disables an unrevoked row, dates the revocation and purges its entries, leaving all other rows; afterwards no plaintext is accepted for it; not found, and nothing accepted either, for other ids; a failing update changes nothing |
| KeyStore.Store.CreateKey | internal/store/store.go:285-312 | succeeds iff randomness, hash and insert do and neither id nor lookup value exists; the fields of the new row; the new key is accepted; a failure changes nothing |
| KeyStore.HitIsAccepted | internal/store/store.go:350-356 | a cache hit implies that the skipped row and bcrypt checks would succeed |
| KeyStore.PutKeepsSpaced | internal/store/store.go:394-404 | re-caching a key schedules its write more than one TTL after all earlier ones |
| KeyStore.DropKeepsSpaced | internal/store/store.go:385-389 | expiry and revocation do not lose the spacing |
| KeyStore.UseAgain | internal/store/store.go:37-38 | a use of a live key schedules a last-used write iff its newest write is more than 30 s old, so within the 60 s interval iff it is between 30 s and 60 s old |
| KeyStore.UseTwice | internal/store/store.go:398-434 | two uses of an uncached key d apart schedule two writes iff d > 30 s, else one |
| RevocationProtocol.StalenessIsBounded | internal/store/store.go:324-414 | on any number of instances and over every interleaving, a validation decided at t succeeds only for a row enabled at some instant of [t - 30 s, t] |
| RevocationProtocol.RevokedKeyAcceptedIff | internal/store/store.go:371-372 | some run accepts a key d after its revocation iff d <= 30 s, with any number of instances and also on the single one that revoked it |
| RevocationProtocol.PutLandsAfterPurge | internal/store/store.go:336-371 | a revocation that completes between row read and cachePut leaves the key cached on the same instance |
| RevocationProtocol.AcceptsAgainIff | internal/store/store.go:336-414 | after a revocation an instance accepts the key again in some continuation iff it still caches it unexpired or a validation there has read it |
| RevocationProtocol.PurgeIsFinalIff | internal/store/store.go:406-414 | once the purge is done the instance accepts the key again iff a validation that has read it overlaps; none that starts later does |
| RevocationProtocol.NewKeyIsAccepted | internal/store/store.go:308-375 | a key just created is accepted by every instance |
| RevocationProtocol.OperationsMove | internal/store/store.go:343-414 | no validation or revocation is ever stuck |
| AuditQueue.AuditStore.InsertAuditLog | internal/store/store.go:473-498 | the stamped row becomes the last of the queue if that holds fewer than 4096, and else is dropped without error, nothing else changing; or it is inserted at once when there is no queue |
| AuditQueue.Conservation | internal/store/store.go:239-265 | offered = accepted + dropped, accepted = attempted + queued + held, as multisets and for every schedule; FIFO; at most 4096 queued |
| AuditQueue.DropsOnlyWhenFull | internal/store/store.go:491-497 | over all schedules, a row is dropped only by an offer to a queue that holds 4096 rows |
| AuditQueue.FirstOffersAreAccepted | internal/store/store.go:491-497 | no schedule drops any of the first 4096 rows |
| AuditQueue.CloseDrains | internal/store/store.go:193-197 | if no row is offered after the stop, Close leaves an empty queue and every accepted row attempted exactly once |
| AuditQueue.AtClose | internal/store/store.go:249-257 | in general, the rows accepted up to the last worker's exit are attempted exactly once and the later ones stay queued, so the drain is complete iff there are none |
| AuditQueue.SchedulesEnd | internal/store/store.go:247-262 | without further offers every schedule of the workers ends, within a bound given by queue, held rows and live workers |
| AuditQueue.WorkersMoveIff | internal/store/store.go:247-262 | no worker can move iff each has exited or, before the stop, waits at an empty queue |
| AuditQueue.StoppedWorkersMove | internal/store/store.go:247-262 | after the stop no schedule is stuck before all workers have exited |
| AuditQueue.LateRowIsStranded | internal/store/store.go:491-497 | a row accepted after the last exit stays in the queue |
| StreamTee.ReplayReadsTheSameBody | internal/proxy/proxy.go:131-148 | a body is read whole, refused as too large or reported unreadable, exactly when; put back, it reads the same again |
| StreamTee.Relay | internal/proxy/proxy.go:199-236 | for any chunking and stop point the client gets exactly the chunks before the stop; the audit copy is exactly their first maxBody bytes; truncated iff there are more |
| StreamTee.RelayedIsPrefix | internal/proxy/proxy.go:204-231 | what is relayed is a prefix of the upstream body, and all of it unless a write fails |
| StreamTee.Retain | internal/proxy/proxy.go:214-226 | the bounded buffer stays the head of what was relayed |
| Proxy.Upstream.Send | internal/proxy/proxy.go:126-178 | what is sent carries the complete body and exactly the stored or the newly granted token; when a pass ends without sending; at most one token request, none with the skew left |
| Proxy.Upstream.TakeBody | internal/proxy/proxy.go:131-148 | the body is consumed and put back whole; too large a one is answered 413 and audited |
| Proxy.Upstream.RefreshForRetry | internal/proxy/proxy.go:180-191 | succeeds iff the forced refresh is granted, and then memory holds the renewed entry; else the client gets 502 and one row says so |
| Proxy.Upstream.Stream | internal/proxy/proxy.go:194-236 | the relayed bytes and status, and one audit row with the head of request and answer, each flagged iff something is missing |
| Proxy.StoredRequestIsHead | internal/proxy/proxy.go:252-275 | an audit row keeps the head of the request, at most maxBody bytes, and is flagged truncated iff something is missing |
| Proxy.Upstream.Forward | internal/proxy/proxy.go:126-237 | the refresh is forced iff a first send is answered 401, and if it is granted the second pass runs, sends the forced token and decides what the client gets; a relayed answer reaches the client with its status and bytes; complete bodies only; at most three token requests, two if the forced token is used in time; one audit row with the heads of request and answer unless the body is unreadable or the request not built |
| Proxy.Upstream.Answer | internal/proxy/proxy.go:180-236 | after an answer: a first 401 leads to the forced refresh and, if granted, the second pass, every other answer is relayed |
| Proxy.Upstream.Handle | internal/proxy/proxy.go:113-124 | every request is answered; the audit row has another status than the client iff the last pass was sent and failed before the first byte |
| Proxy.UnseenFailure | internal/proxy/proxy.go:174-178 | such requests exist: with a usable token and an upstream that fails unseen, the row says 0 or the upstream's status and the client gets 502 |

## Left out

- HTTP, TLS, gin routing, SQL, fsnotify, logging and metrics: plumbing around the modelled decisions.
- `RateLimiter`: its arithmetic is in golang.org/x/time/rate, which is not part of this model.
- Configuration, CORS, access logs, admin and health handlers, header filters, `buildURL`: per-field facts.
- The `writing` flag and the watch debounce: their guarantee depends on file system event delivery.
- `authPathWritable`: a boolean of the configuration.
- Aliasing of Go maps: file maps are values here, so `cloneFileData` is the identity.
- The cached token endpoint is in `ManagerModel.Manager` only; the step machine has a discovery that succeeds or fails.
- Concurrent use of the cached `keyCacheEntry.lastUsed` field: `KeyStore.Store` runs one operation at a time.
- The columns of an audit row that are copied from the request or parsed from its JSON.
- Upstream streams that never end: a stream is a finite list of reads ending in EOF or an error.
- A write to the client that fails after sending part of its chunk counts as not relayed.
- `ListAuditLogs`, `GetAuditLog`, `ListKeys`, readiness pings: ordering and errors are the database's.
- GrantsPerWindow: speaks of grants whose answer arrived; lost answers are not counted.
- TokenNeverDiesWhileTicking: assumes that the ticker's own refreshes succeed, and that no answer is lost.
- TickingKeepsAliveIff: is for ticks that take no longer than they are apart; for longer ones TokenNeverDiesWhileTicking
  gives the sufficient condition only.
