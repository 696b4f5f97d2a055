# Session recovery and OTP coordination: a verified model

The SDK keeps one authenticated session per credential set alive. A request that loses its
session triggers one shared re-login; a login spends a one-time password, so logins of one
account are serialized inside a process and, through a private directory, between processes.
Sessions, rate-limit deadlines and accepted TOTP steps are kept in that directory.

This project models that protocol in Dafny and proves its guarantees over every interleaving, for
any number of threads, processes, crashes and server behaviours.

| file | what it models |
|---|---|
| `OtpLocks.dfy`, `OtpCoordination.dfy` | the reference-counted account semaphores, the table of accepted steps |
| `LoginProtocol.dfy`, `Login.dfy`, `Backoff.dfy`, `AuthErrors.dfy` | the handshake and the attempt loop; delays and error classes |
| `OtpReplay.dfy` | logins of many threads and processes competing for OTP steps |
| `Refresher.dfy`, `RefresherRuns.dfy` | the single-flight recovery of one client |
| `SharedStore.dfy`, `StoreBridge.dfy` | many clients sharing a directory |
| `RefresherWitnesses.dfy`, `SharedWitnesses.dfy` | runs of both that show where a promise ends |
| `SessionStore.dfy`, `AccountRetry.dfy`, `Endpoints.dfy` | keys, names, validated records, retry deadlines, normal forms |
| `CookieJar.dfy` | the tracked cookie jar |
| `RoundTrip.dfy` | noticing a lost session and replaying the request |
| `LoginCache.dfy` | the package cache of `Login` |
| `LockOrder.dfy` | deadlock freedom across all of it |

Two styles are used. Code that runs under a lock or alone is a class or a method with loops,
proved against functions of the old state (`Refresher`, `Coordination`, `FileSessionStore`,
`TrackedCookieJar`, `Login`, `RoundTrip`). What happens between critical sections is a transition
system: `Enabled` and `Apply` give one step per critical section, `IsRun` a run, and theorems hold
in every state of every run. The class methods are proved equal to the functions that `Apply` uses.

Assumptions: one shared clock that never runs backwards and starts at or after the epoch; hashes
are injective, so a name stands for the text that is hashed; the operating system's file lock is
exclusive and released when its process dies; every other answer of server, disk, random source
and caller is arbitrary, except that only answers of the server carry an API error and nothing
outside makes a classified error. A step of `OtpReplay` uses the exclusiveness of the account semaphore,
which is `OtpLocks.OneHolder`. The recovery worker of `RefresherRuns` takes the steps that
`LoginProtocol` allows, which are the traces `Login.Login` is proved to produce; a closed client
sends nothing more, and a recovery has at least 35 seconds (session.go:720-728). A step `LoginOk`
of `SharedStore` stands for a call of `Login.Login` that returns no error. One client of
`SharedStore` runs one task at a time for its current generation and marks only generations it
recovered, which is `RefresherRuns.OneWorker` with `RunKeepsInv` and `MarksRecoveredSessions`.
The target of a session is an identifier that does not begin with a NUL, as the reserved ones do
(account_retry.go:11-14).

## Where the code falls short of what is expected of it

The first six are proved with the condition under which the expected property holds, and with the
runs or inputs for which it does not.

- `refresh` can return nil although the session is not newer (session.go:985-988 with 957-958 and
  683-687): exactly when the caller waited and the last outcome at its generation is a marker that
  found another generation in the store (`NilMeansNewer`, `NilWithoutNewer`, `MarkerFindsNewer`).
  Without a store it cannot happen.
- README.md:41 of the SDK says that rate limits honor Retry-After. A marker overwrites `notBefore`
  with its own start plus 30 seconds (session.go:956), also when the server asked for longer. With
  a store the deadline is kept all the same if it was saved for the account
  (`NoRequestBeforeLimit`); without one, or when that save failed, the next recovery starts early
  (`OvertakenIsMissed`, `ServerDeadlineMissed`). Between the attempts of one login the deadline is
  always kept.
- A marker computes its deadline before it waits for the account lock (session.go:948-949), so one
  that began earlier can be saved later and lower the stored deadline
  (`NoHandshakeBeforeMarkDeadline`, `EarlierMarkLowersDeadline`, `MarkDeadlineMissed`).
- A record with another credential fingerprint loads as the zero record, so stored generations
  restart (`ForeignFingerprintRestarts`), a marker's deadline binds nobody who uses another
  fingerprint (`ForeignFingerprintLogsIn`), and one generation can denote two logins
  (`TwoFingerprintsDisagree`). Generations agree on every key that is used with one fingerprint;
  account deadlines bind everybody.
- `SetCookies` applies all removals before all stores, which differs from section 5.3 of RFC 6265
  exactly for batches that store a key and remove it for good later (`TwoPhaseIsFold`).
- `normalizedAuthEndpoint` is idempotent except exactly for endpoints that lose their whole host
  part, such as `https://:443/`, and whose query is missing or ends in a slash, or whose path or
  query holds an upper-case letter (`NormalTwice`). For those, and only those, two clients can
  reach one retry entry under two different locks (`LockCovers`, `LockCoverageExact`).
- `Save` can report a failure after it has replaced the file (session_store.go:306-309). All
  theorems cover such saves.

## Model

| member | source | states |
|---|---|---|
| OtpLocks.StepKeepsInv | otp_coordination.go:84-135 | every step of any caller (registering, waiting, cancelling at either point, holding, releasing once or again, deleting the map entry) keeps: the user count is the number of registered threads, tokens plus holders is 1, each registered thread uses the object its account maps to |
| OtpLocks.RunKeepsInv | otp_coordination.go:84-135 | that invariant in every state of every run |
| OtpLocks.OneHolder | otp_coordination.go:101-134 | at most one thread holds the token of an account |
| OtpLocks.OneLiveLock | otp_coordination.go:91-108 | two live lock objects never exist for one account, however often its entry was deleted and recreated |
| OtpLocks.MappedIffUsed | otp_coordination.go:98-107 | an account is in the map if and only if some thread is registered for it, so the map is empty at quiescence |
| OtpLocks.SendNeverBlocks | otp_coordination.go:112-127 | the channel has room whenever a thread puts the token back |
| OtpLocks.WaitersProgress | otp_coordination.go:101-111 | a waiter can take the token unless another thread of the same account has it |
| OtpLocks.LeaveKeepsReached | otp_coordination.go:103-108 | deleting the entry of the last user takes it from no other registered thread |
| OtpCoordination.Coordination.constructor | otp_coordination.go:23-30 | both maps start empty |
| OtpCoordination.Coordination.Enter | otp_coordination.go:91-99 | the registration section on the mutable object is the transition `Register`, creating an object with its token in the channel only for an account without one |
| OtpCoordination.Coordination.Leave | otp_coordination.go:103-108 | the deregistration section is the transition `Deregister` |
| OtpCoordination.Coordination.Receive | otp_coordination.go:110 | taking the token is the transition `Take` |
| OtpCoordination.Coordination.Send | otp_coordination.go:113-126 | putting it back is the transition `Give` |
| OtpCoordination.Coordination.Remember | otp_coordination.go:144-150 | afterwards the register of the identity holds the larger of the old and the new step, and no other register and no lock has changed |
| OtpCoordination.WakeIsPast | otp_coordination.go:165-169 | one second into the step after the accepted one, the current step is past it |
| OtpCoordination.StepExact | otp_coordination.go:165-169 | step n is the 30 seconds from 30 n seconds on, and a wait for it ends one second after its end |
| AuthErrors.ClassifyIsTransparent | errors.go:132-205 | classification changes neither whether an error is rate limited nor the delay it asks for, is stable when repeated at any stage, and gives the rate-limit kind exactly to the errors the login loop retries, save storage failures |
| AuthErrors.AnswerExact | errors.go:187-205 | an answer of the server is a rate limit, classified or not, exactly if it is a 429 or its text says so in any case; it asks for its Retry-After, else for 61 seconds if its text asks to wait a minute, else for nothing |
| AuthErrors.KindExact | errors.go:132-184 | each kind by exactly the stages and statuses that give it: rejected credentials for a 400 or 401 to the password, a rejected code for one to the OTP, permission denied for a 403, or a 401 to the impersonation, a lost session for a 401, 403 or redirect at recovery; storage failures and rate limits come first |
| AuthErrors.ClassifyKeepsInner | errors.go:136-139 | an error that contains an AuthError is replaced by it: storage wrappers change nothing, and among joined errors a rate limit is lost exactly if the AuthError kept has none of its own and comes after an error with the limit, or before one and without any API error |
| AuthErrors.ClassifyKeepsEnded | errors.go:132-185 | an error is recognized as an ended context after classification exactly if it was before, unless it contains an AuthError that is not |
| AuthErrors.RetryAfterExact | errors.go:210-230 | the delay is never negative; seconds are honoured to the nanosecond exactly when they are nonnegative and fit a 64-bit duration; a date waits until that date |
| Backoff.CappedExact | session.go:902-906 | for every attempt number, also where the 64-bit shift wraps, the delay is one second doubled that often, capped at ten seconds |
| Backoff.WrappedIsOut | session.go:902-906 | from 34 doublings on the wrapped value is never a positive number of at most ten seconds |
| Backoff.JitterBounds | session.go:475 | after jitter the delay lies between 0.75 and 10 seconds |
| LoginProtocol.LoginBounded | session.go:814-899 | one login sends at most `maxAttempts` password, twice as many OTP and `maxAttempts` impersonation requests |
| LoginProtocol.RequestsBounded | session.go:232-313 | the same from any place in the protocol, counting what the attempt under way may still send |
| LoginProtocol.NoRequestBeforeDeadline | session.go:857-898 | no request of a later attempt is sent before the end of a rate-limited one plus its Retry-After or backoff |
| LoginProtocol.AdvanceKeepsAboveFloor | session.go:252-259 | the step submitted is above the accepted step that was read, in the first submission and in the retry |
| LoginProtocol.CompleteMeansStages | session.go:232-313 | a completed login has passed every configured stage in one attempt and in order: password, OTP, record of the accepted step, impersonation |
| LoginProtocol.EventOrder | session.go:232-313 | the events of a login come in one order only: each success follows its own request, each stage the one before, a second submission the first, and an attempt only a rate-limited one |
| Login.WaitForAccepted | otp_coordination.go:152-181 | the wait ends for every monotone clock whatever the sleeps do; it succeeds only past the accepted step; it fails only with an ended context, a failed sleep, which is one until a second into the next step, or a clock that stood still |
| Login.ReadFloor | session.go:819-836 | it fails exactly if the context has ended or the store cannot be read, with that error, wrapped as a storage error unless it is an ended context; else the larger of the remembered and the stored step is remembered |
| Login.PassFloor | session.go:837-840 | it succeeds only at an instant whose step is past the step read |
| Login.SendPassword | session.go:247-250 | one request; it passes exactly if the reply is an answer with a status from 200 to 299; otherwise its error carries the reply whole |
| Login.BeforeOtp | session.go:239-250 | no password is sent when the accepted step cannot be read; success leaves exactly the step read in the table |
| Login.Record | session.go:842-855 | an accepted step is remembered in the process even when writing it to the store fails, and exactly a failed write fails the stage, as a storage error unless it is an ended context |
| Login.SendCode | session.go:252-261 | a code that cannot be computed sends nothing; else one submission of the present step, which passes exactly if the reply is an answer with a status from 200 to 299 |
| Login.Verify | session.go:252-261 | on a 2xx the step remembered is the counter the code was computed for, whenever the reply arrives; otherwise nothing is recorded |
| Login.VerifyTwice | session.go:263-279 | an answer 401 that says nothing of a rate limit earns one more submission after the next window; any other rejection ends the stage with one |
| Login.VerifyAgain | session.go:263-275 | it sleeps until a second into the next step; a failed wait sends nothing; otherwise the step of the moment after the wait is submitted |
| Login.AwaitWindow | session.go:343-347 | the sleep asked for ends one second into the next 30-second step |
| Login.SendImpersonate | session.go:281-309 | it passes exactly if the reply is an answer with a status from 200 to 299; otherwise its error carries the reply whole |
| Login.Stages | session.go:239-309 | the first stage that fails ends the handshake with its name, and the error is what went wrong at the last moment of it: an ended context, a failed read, sleep, code or save, a clock that stood still, or the reply to the latest request |
| Login.StageExact | session.go:239-309 | the stage of an error is read off the events of its attempt: login if no stage is behind it, impersonation exactly if that was asked for last |
| Login.StoreFailureKind | session.go:825-851 | a failed disk is a storage failure at every stage, whatever its error wraps; an ended context is not, and stays recognizable |
| Login.Handshake | session.go:232-334 | success means that every configured stage was answered with a 2xx, in order: each success in the trace has an answer with such a status behind it, to the request right before; the error is what went wrong at the last moment, classified with the stage the handshake had come to, and it is recognized as an ended context or a rate limit exactly if that is what went wrong |
| Login.LimitIsAnswer | session.go:863-885 | only an answer of the server, to the latest request of the attempt, makes an attempt rate limited, and the delay asked for is the one of that answer |
| Login.AnswerIsLimit | session.go:863-885 | and an answer that is a 429 or speaks of a rate limit always does |
| Login.EndLimited | session.go:863-889 | a rate-limited attempt puts its end plus Retry-After, else the backoff, into `notBefore` |
| Login.WaitForRetry | session.go:890-897 | the wait sleeps for the delay and succeeds only past the deadline; its error is a rate limit of the stage that was limited, recognized as an ended context exactly if the cause or the failure of the sleep is one |
| Login.Login | session.go:804-900 | whatever the environment does, the attempts follow the protocol, and no stage passes without a 2xx; each rate-limited ending is an answer to the latest request, a 429 or one that speaks of a rate limit, and the wait is the Retry-After of that answer, else 61 seconds if its text asks to wait a minute, else the jittered backoff; any other failure is what went wrong and is not retried; success clears `notBefore` and completed every stage; failure leaves the last deadline; no known step is submitted and every accepted step is remembered |
| Login.RetryAfterHonoured | session.go:857-898 | no later request of the login is sent before the end of a rate-limited attempt plus the Retry-After of the answer that ended it, or 61 seconds if its text asks to wait a minute |
| OtpReplay.StepKeepsInv | session.go:252-279 | any step of any login in any process, a crash and a save that fails late included, keeps the locks exclusive, the registers at least as large as everything recorded, and each login informed of every step recorded for it |
| OtpReplay.NoKnownReplay | session.go:804-862 | every submitted step is above every step its process has recorded for the account and secret and, with a store, every step any process ever wrote to the directory; it is the counter of the instant of submission |
| OtpReplay.RecordedWasSubmitted | session.go:405-410 | a recorded step is one that this login submitted, in its last event before |
| OtpReplay.RegistersApart | session.go:804-810 | two logins under way never share a register, in a process or in a directory |
| Refresher.Refresher.Enter | session.go:674-716 | the first section of `refresh`: a caller is refused exactly if its session is current, nobody is at work on it, and the deadline is to come or the last failure less than 30 seconds old, with the remembered error, or without one with the time that remains; it joins whoever is at work; it learns of a newer session; else it reserves the slot; the transition system decides the same |
| Refresher.RefusalExact | session.go:692-712 | the same of the decision the transition system uses |
| Refresher.Refresher.Finish | session.go:731-744 | a recovery writes jar and generation and clears failure and deadline together, or writes only the failure and its time |
| Refresher.Refresher.Reserve | session.go:926-936 | an ineffective replay reserves the slot exactly if its generation is current and the slot free |
| Refresher.Refresher.FinishMarker | session.go:951-963 | the marker that applied writes its failure and a deadline 30 seconds after it began; any other writes only the error of the store, or clears the error when it was skipped |
| RefresherRuns.RunKeepsInv | session.go:670-754 | in every state of every run: the slot names the one worker, which works for the current generation; waiters wait for it or for a closed channel; `lastErr` reflects the last outcome; every jar in use or about to be has a login behind it |
| RefresherRuns.StepKeepsWaitersSound | session.go:679-691 | a waiter waits for the worker of its own generation or for one that has finished, also when later cycles have run since |
| RefresherRuns.OneWorker | session.go:679-716 | recoveries and markers together are at most one worker, the one the slot names |
| RefresherRuns.OnlyPublishingChangesSession | session.go:731-744 | only the owner's publication changes generation or jar, and raises the generation; a failed candidate changes neither |
| RefresherRuns.PublishExact | session.go:765-799 | a restored session is published under its own generation, a new one right above the one lost or the one loaded, whichever is later |
| RefresherRuns.OneJarPerGeneration | session.go:731-744 | generations never decrease, and each names one jar for ever |
| RefresherRuns.SessionPassedAllStages | session.go:670-754 | the session in use at any time comes from a login, here or in a process that shares the store, whose events are a run of the login protocol and passed every configured stage in one attempt |
| RefresherRuns.NilMeansNewer | session.go:670-754 | `refresh` returning at once returns nil for a newer session only; a waiter that wakes to find the session unreplaced is told nil if and only if the last outcome is a skipped marker |
| RefresherRuns.NilMeansNewerWithoutStore | session.go:670-754 | without a store nil always means a newer session, for late wakers too |
| RefresherWitnesses.NilWithoutNewer | session.go:985-988 | the exception is reachable from every state of a store-backed refresher in which a recovery may start and log in: requests replay as the transport does, another process logs in and saves the next generation while the marker waits, and the last step returns nil on the old session |
| SharedWitnesses.MarkerFindsNewer | session.go:967-988 | the other half of that run: whenever two idle clients have the stored generation, one of them from a recovery, its marker can find the next generation, saved by a login of the other, and ends without a trace |
| RefresherRuns.ReplayOnNewerSession | session.go:1034-1051 | without a store, every replay goes out on a strictly newer session than the one lost |
| RefresherRuns.ReplayOnLostSession | session.go:1034-1051 | with a store or without, a replay goes out on the session that was lost if and only if its `refresh` woke to a skipped marker on that session and nothing was published since; every other goes out on a strictly newer one |
| RefresherRuns.MarksRecoveredSessions | session.go:1050-1063 | only a session that a recovery published is ever marked ineffective |
| RefresherRuns.LateReplayHarmless | session.go:926-931 | a late ineffective report changes nothing, and a marker never falls on a newer session |
| RefresherRuns.NoRecoveryDuringCooldown | session.go:692-715 | without a store no recovery starts at a generation within the cooldown of any failure or ineffective replay there, nor before `notBefore` |
| RefresherRuns.SuccessClearsCooldown | session.go:733-738 | right after a success nothing delays the next recovery |
| RefresherRuns.RunKeepsFailures | session.go:739-741 | the latest failure at the current generation is the one remembered |
| RefresherRuns.RefusedIsTold | session.go:692-712 | a refused caller is told the error the last recovery or marker wrote, which was about its own session; only if none was written how long the deadline is off |
| RefresherRuns.WakerIsTold | session.go:683-691 | a caller that waited is told the error written last, when it wakes |
| RefresherRuns.NoRequestBeforeLimit | session.go:692-699 | no request of any recovery is sent before a server deadline of its generation, if no marker has overtaken that deadline or the store holds it |
| RefresherRuns.RunKeepsLimits | session.go:777-783 | deadlines not overtaken are past or covered by `notBefore`; a login under way is past all others, and past the account deadline |
| RefresherWitnesses.OvertakenIsMissed | session.go:951-956 | whenever a marker of a client that is not closed is about to overtake a deadline that the store does not hold, a login can begin before it |
| RefresherWitnesses.ServerDeadlineMissed | session.go:857-899 | this happens from every state in which a recovery may start and log in, without a store or when saving the account deadline fails; the recovery limited there spends all its attempts |
| RefresherWitnesses.ReachReplay | session.go:1014-1051 | from every such state a new session can be published on which a request is replayed |
| SharedStore.StepKeepsInv | session.go:573-640 | whatever credentials the processes use, every step of every process, crashes and failing saves included, keeps: one holder of the lock, no account deadline above the stored one, and each client at a place that what it can read justifies, so a login under way is past the deadlines of account and entry |
| SharedStore.StepKeepsNamed | session.go:573-640 | on a key that is used with one credential fingerprint it also keeps: entry, sessions in use and sessions to be published are named by their generation, none above the stored one, and a cleared generation has no cookies |
| SharedStore.SessionExact | session.go:589-625 | a client restores the stored session exactly if that is its own, has live cookies and, to begin with, the probe found it alive, or, to recover, it is newer than the one lost; so a session found dead is never published; otherwise it logs in exactly if neither the account nor its own entry, expired or not, asks it to wait |
| SharedStore.MarkExact | session.go:975-991 | a marker clears the entry exactly if that is its own, unexpired, and of the generation reported |
| SharedStore.SavedIsRestored | session.go:628-634 | a saved session is what any client with its credentials restores next, until its cookies expire |
| SharedStore.SavedClears | session.go:508-530 | a save clears the deadline of the entry |
| SharedStore.StepRaisesByOne | session.go:756-799 | a stored generation stays, or a new login is saved exactly one above it; names never change |
| SharedStore.SaveLandsAbove | session.go:791-794 | the generation chosen from what was seen and loaded is one above what is stored at the save |
| SharedStore.GenerationsGrow | session.go:628-634 | over any run stored generations never decrease |
| SharedStore.GenerationsAgree | session.go:590-639 | equal generations of a key that is used with one fingerprint denote the same login in every process and in the directory at all times, and are at most the stored one |
| SharedStore.NoRequestBeforeAccountDeadline | account_retry.go:11-77 | a process in a login, with whatever credentials, is past every account deadline any process has persisted so far |
| SharedStore.ClearedNeverRestored | session.go:767-770 | a generation cleared by a marker is never restored by any process |
| SharedStore.MarksOwnGeneration | session.go:975-991 | over any run, with whatever credentials, an effective marker finds its own generation stored under its own fingerprint, keeps it, and touches no other key |
| SharedStore.LateMarkHarmless | session.go:983-988 | over any run a marker that cannot load its own generation leaves no trace in the directory |
| SharedStore.MarkDeadlineStays | session.go:989-991 | the entry a marker cleared stays cleared, with a deadline at least as late, until that deadline and beyond it while its generation stays, and until then no process using the key is in a handshake or has come out of one; as long as no earlier marker is saved on top |
| SharedStore.NoHandshakeBeforeMarkDeadline | session.go:611-613 | no process using the key is in a handshake before that deadline, under the same condition only |
| SharedWitnesses.EarlierMarkLowersDeadline | session.go:947-995 | whenever an earlier marker is about to be saved on top, a handshake before the replaced deadline can follow |
| SharedWitnesses.MarkDeadlineMissed | session.go:947-995 | this happens whenever two clients have recovered to one stored session and a third is idle |
| SharedWitnesses.ReachShared | session.go:756-799 | such states are reachable from every state with a free lock, no account deadline to wait for and an unused key |
| SharedStore.ForeignFingerprintRestarts | session.go:608-634 | a save, by `initialize` or `recover`, lowers the stored generation if and only if the entry has another fingerprint and a generation above the one chosen, which is then 1 or one above the generation recovered from |
| SharedStore.ForeignFingerprintLogsIn | session.go:608-620 | over an entry with another fingerprint, whatever its deadline, a client goes on to a handshake if and only if no account deadline is to come |
| SharedWitnesses.TwoFingerprintsDisagree | session.go:608-634 | with two fingerprints on a key, one generation can denote two logins at the same time |
| StoreBridge.LoadsAgree | session_store.go:213-241 | loading a record saved earlier gives a mismatch, an expired or a fresh record exactly as the protocol's view of it does |
| StoreBridge.DisksAreStored | account_retry.go:102-115 | the save of an accepted step keeps the directory in agreement with the disks of the replay protocol, also when it fails late |
| StoreBridge.DisksAreLeftAlone | account_retry.go:65-77 | no other write and no other step of a login disturbs that agreement |
| StoreBridge.RetryIsStored | account_retry.go:65-77 | the save of a rate-limited login, under any spelling, keeps the directory in agreement with the account deadline of the shared-store protocol |
| StoreBridge.RetryIsLoaded | account_retry.go:38-63 | by that agreement every load under any spelling that works gives exactly that deadline |
| StoreBridge.RetryIsLeftAlone | account_retry.go:65-77 | no other write and no other step of a process disturbs it |
| Endpoints.NormalTwice | otp_coordination.go:49-72 | the endpoint normal form is idempotent if and only if it is not that the host part is lost and there is no query, one that ends in a slash, or an upper-case letter in path or query |
| Endpoints.NormalExact | otp_coordination.go:49-72 | two URLs that keep their host part have one normal form exactly if they agree in scheme and host up to case, in port, given or by default, in path up to slashes at its end, and in query |
| Endpoints.ParseExact | otp_coordination.go:49-62 | a URL in writing parses to exactly its scheme, host, port, path and query; a user part and a fragment are dropped |
| Endpoints.ParseRender | otp_coordination.go:49-72 | printing a normal URL that has a host part and parsing it gives it back |
| Endpoints.UnparsedAgain | otp_coordination.go:51-53 | the fallback for what does not parse is stable |
| Endpoints.HostlessTwice | otp_coordination.go:55-71 | the same for an endpoint that loses its host part |
| Endpoints.UnstableExamples | otp_coordination.go:55-71 | for every scheme a bare colon as host part is such an endpoint |
| SessionStore.EntryNameInjective | session_store.go:431-444 | entry names are injective on valid keys although the target may contain NULs |
| SessionStore.AccountLockNameInjective | session_store.go:333-340 | two keys share the account lock if and only if their endpoint and username normal forms agree |
| SessionStore.NormalUserTwice | account_retry.go:23 | the username normal form is idempotent |
| SessionStore.NormalUserExact | account_retry.go:23 | spellings of a username that differ in letter case and in space around it have one normal form |
| SessionStore.StoredExpiry | session_store.go:113-147 | a stored cookie expires after its receipt: by a positive Max-Age, else by Expires, else at most 24 hours later as a local expiry |
| SessionStore.MaxStepExact | session_store.go:23 | `maxAcceptedOTPStep` is the largest step whose wake-up second fits 64 bits |
| SessionStore.ErrorsAreExpiry | session_store.go:507-534 | cookies valid at one time fail later validation only by expiry |
| SessionStore.ValidExact | session_store.go:517-534 | a stored cookie is valid exactly if its parts can be sent, its Max-Age is in range and its expiry is to come |
| SessionStore.RecordExact | session_store.go:484-515 | a record may be used exactly if it names the key and its credentials, is not empty, has an accepted step exactly with a binding, and all its cookies are valid |
| SessionStore.SavedStaysReadable | session_store.go:213-275 | a record accepted by `Save`, loaded at any later time, comes back whole, or whole along with the expiry error once a cookie has expired; never corrupt, mismatched or missing |
| SessionStore.SavedElsewhere | session_store.go:431-444 | a save disturbs no other endpoint, username or target |
| SessionStore.GetExact | session_store.go:213-241 | a record is loaded exactly if the key is usable and the record good, and as it is; an expired one only along with that error; a missing one and an unusable key are told from all others |
| SessionStore.FileSessionStore.Load | session_store.go:213-241 | the checks of `Load` in their order come to the same |
| SessionStore.FilledAgrees | session_store.go:255-272 | a record to be saved is rejected as another key's exactly if it names an endpoint, username, target or fingerprint that is not the key's; leaving one out is never a mismatch |
| SessionStore.FileSessionStore.Save | session_store.go:246-310 | an invalid record changes nothing; a valid one replaces the entry in one step, with all it holds, under the identity of the key; a failure may come before or after that; no other entry changes |
| AccountRetry.LoadAccountRetry | account_retry.go:38-63 | the later of canonical and legacy deadline, or the first error |
| AccountRetry.LoadExact | account_retry.go:38-63 | from good or missing entries it is the later of the two deadlines, and one of them |
| AccountRetry.SaveAccountRetry | account_retry.go:65-77 | the later of the given and the loaded deadline is written under the canonical key, or nothing on an error |
| AccountRetry.LoadAcceptedOtpStep | account_retry.go:88-100 | the stored step, none if there is no entry, an error if the binding differs |
| AccountRetry.StepLoadExact | account_retry.go:88-100 | a step is loaded exactly from a good record that names the right secret; none exactly if there is no record; any other record is an error |
| AccountRetry.SaveAcceptedOtpStep | account_retry.go:102-115 | the larger of the given and the stored step is written, or nothing on an error |
| AccountRetry.SavedDeadlineHolds | account_retry.go:38-77 | after a save under one spelling, a load under any spelling gives at least the deadline saved and at least what it gave before |
| AccountRetry.DeadlinesNeverForgotten | account_retry.go:65-77 | whatever is written before, in between and after, a later load under any spelling gives at least every deadline saved under any other |
| AccountRetry.DeadlinesNeverDecrease | account_retry.go:38-63 | whatever is written in between, and at whatever times the two are made, a later load under one spelling never gives less than an earlier one, with or without a legacy entry; a load that works keeps working |
| AccountRetry.SavedStepIsMax | account_retry.go:102-115 | after a save the larger of the old and the new step is loaded |
| AccountRetry.StepsAreRegisters | account_retry.go:88-115 | over any sequence of session, deadline and step writes, every load of a step gives what a table of max-merge registers holds |
| AccountRetry.StepsNeverDecrease | account_retry.go:88-115 | whatever is written in between, and at whatever times the two are made, a later load of a step never gives less than an earlier one |
| AccountRetry.StepsNeverForgotten | account_retry.go:88-115 | whatever is written in between, a later load under any spelling gives at least every step saved under any other |
| AccountRetry.SpellingsShare | account_retry.go:20-36 | spellings with one normal form share the canonical entry |
| AccountRetry.LockCovers | session_store.go:333-347 | clients that reach one session, retry or accepted-step file take one account lock, for endpoints that are stable under normalization |
| AccountRetry.LockCoverageExact | session_store.go:333-347 | for every key the canonical spelling shares the retry entry, and the lock if and only if the endpoint is stable |
| CookieJar.TwoPhaseIsFold | tracked_cookie_jar.go:96-129 | removals first equals one cookie at a time if and only if no key is stored and later removed for good |
| CookieJar.OrdersAgreeAt | tracked_cookie_jar.go:122-128 | the same for one key |
| CookieJar.MaxAgeWins | tracked_cookie_jar.go:107-111 | a positive Max-Age overrides any Expires |
| CookieJar.OpExact | tracked_cookie_jar.go:96-120 | a cookie of a response removes its key exactly if the server takes it back, and is stored exactly if it can be kept: then with the name, value, Secure, HttpOnly and SameSite given, host-only exactly without a Domain, under the lowered Domain without its dot or the host, and under the path given or the directory of the request |
| CookieJar.ResponseExact | tracked_cookie_jar.go:88-129 | after a response each key holds the last cookie of it that can be kept there, else nothing if one takes it back, else what it held |
| CookieJar.LessExact | tracked_cookie_jar.go:158-166 | strings are ordered by the first difference, a proper prefix first |
| CookieJar.TwoPhaseKeepsKeyed | tracked_cookie_jar.go:115-128 | every tracked cookie is kept under its own name, domain and path |
| CookieJar.PrecedesTotal | tracked_cookie_jar.go:158-166 | the order of a snapshot is total and strict on keys |
| CookieJar.RestoredExact | tracked_cookie_jar.go:181-203 | a cookie can be restored exactly if it is valid and has a domain; its key has the lowered domain without a dot, and the root for an empty path |
| CookieJar.SortedSorts | tracked_cookie_jar.go:158-166 | sorting keeps the cookies and gives a strictly sorted list when keys are distinct |
| CookieJar.SortedUnique | tracked_cookie_jar.go:158-166 | a strictly sorted list is determined by its cookies, so the map's iteration order does not matter |
| CookieJar.RestoreSnapshot | tracked_cookie_jar.go:173-209 | restoring a snapshot into an empty jar brings back exactly the unexpired cookies |
| CookieJar.PersistRoundTrip | tracked_cookie_jar.go:138-218 | persisting, restoring and persisting again at one time gives the same list |
| CookieJar.CyclesNeverExtend | session_store.go:162-164 | no number of save and restore cycles adds a cookie or moves an Expires |
| CookieJar.CookiesUnchanged | tracked_cookie_jar.go:88-218 | in any order of responses, snapshots and restores of any earlier snapshot, into a new jar or on top, every tracked cookie is one cookie of one response, kept field by field as it was given |
| CookieJar.NeverOutlives | session_store.go:113-147 | so a cookie for which the server gave no expiry never outlives its receipt plus the TTL, a day at most, and no other cookie the expiry the server gave it |
| CookieJar.TrackedCookieJar.SetCookies | tracked_cookie_jar.go:88-129 | the two loops compute removals, then stores, and so each key comes to hold what the response means for it |
| CookieJar.TrackedCookieJar.Classify | tracked_cookie_jar.go:96-120 | the batch is split into removals and stores in order |
| CookieJar.TrackedCookieJar.PersistentCookies | tracked_cookie_jar.go:138-168 | exactly the unexpired cookies, strictly sorted, while expired ones are dropped; an error exactly if an unexpired one is invalid |
| CookieJar.TrackedCookieJar.Restore | tracked_cookie_jar.go:173-209 | everything is validated before anything is installed; the first problem is the error |
| RoundTrip.LoginExact | session.go:1199-1213 | a redirect is a login page if and only if a whole path segment reads "login" |
| RoundTrip.LossExact | session.go:1167-1213 | a response means a lost session exactly if it is a 401, a redirect to a path with a segment "login", or, impersonating, a 403 whose first 4 KiB say that the impersonation was closed |
| RoundTrip.LossIsClassified | session.go:1055-1065 | a replay that is lost again is a persistent session loss, unless it is rate limited |
| RoundTrip.RoundTrip | session.go:1014-1068 | no 401, login redirect or closing 403 reaches the caller, and every other first reply does, untouched and after one send; a recovery exactly for those; at most two sends, with one body and the cookies of the session current then; the second only after a recovery; a report exactly if the replay is lost, for the replay's generation; the caller gets the error of the step that failed |
| LoginCache.OneLeader | session.go:88-119 | at most one caller leads a key |
| LoginCache.CachedOnce | session.go:124-134 | a cache entry is written at most once |
| LoginCache.OneClient | session.go:88-134 | all successful calls for a key return one client |
| LoginCache.WaiterNotPoisoned | session.go:97-110 | no caller ever returns, of a call it waited for, an error that is a sign of an ended context if the leader's context had ended |
| LoginCache.WaiterSharesOrLooks | session.go:97-110 | a waiter with a live context shares every other error, and looks again exactly if the login succeeded, panicked or was given up with its context |
| LoginCache.WaiterGoesWithItsContext | session.go:97-112 | a waiter whose own context has ended returns its own error |
| LoginCache.ResultsExact | session.go:88-163 | every result is its caller's own: a client that a login of its key made, the error of its own ended context, the very error of its own login, or that of the login it waited for |
| LoginCache.WaiterHasLeader | session.go:95-98 | a blocked waiter's call is closed or has a leader at work |
| LoginCache.RunKeepsInv | session.go:88-134 | the joint invariant of cache, pending calls and callers in every run |
| LockOrder.ProgramsDisciplined | session.go:88-118 | every goroutine, on every path through logins, recoveries, markers and requests, waits only for what ranks above all it holds, and ends holding nothing |
| LockOrder.LoginPathRanked | session.go:804-900 | inside `login`, with any number of attempts and sections, early exits and cancelled waits |
| LockOrder.SessionPathRanked | session.go:573-640 | for `initialize` and `recover`, with and without a store, restoring, refusing or saving |
| LockOrder.GoroutinePathRanked | session.go:717-744 | for whole goroutines: recoveries, markers, requests that wait for either, callers that follow, look again or lead |
| LockOrder.ChainEnds | session.go:585-589 | the chain from a blocked thread to the holder climbs in rank and ends at a thread that can step |
| LockOrder.NoDeadlock | session.go:585-589 | whatever the threads and however far each has got, while one is unfinished some thread can step |

## Left out

- File system mechanics: permissions, symlinks, temporary files, fsync, flock polling and JSON. `Save` is one validated map update that may fail before or after; reading fails only by what is stored.
- Hashing, HMAC and base32: names stand for the hashed text, and the TOTP code itself is not computed, only its step.
- `net/http`, redirects, TLS, the wrapped cookie jar and its matching rules: the server is an arbitrary sequence of replies, and `SetCookies` and `Restore` are modelled up to the delegation to the wrapped jar.
- Event payloads and handlers: events are steps that return.
- The probe request of a restored session: its answer is an arbitrary boolean.
- Trimming and size limits of response bodies, and the request fields of an APIError.
- `LockEntry`, compatibility aliases, client.go, auth.go and endpoint.go: they would add only easy members.
- 64-bit wrap-around of generations: they are natural numbers.
- Saturation of `time.Time.Sub`: instants are integers.
- The domain check of `http.Cookie.Valid`: name, value and path are checked.
- Unicode: case and space are those of ASCII.
- Endpoints.NormalTwice: strings with a percent sign, a bracketed host, an unbracketed host with several colons, one of < > " in the host, a path character that Go would escape, or a space anywhere, also in the query, count as ones that do not parse; a user part that net/url refuses for one of its characters is dropped like any other.
- RefresherRuns.NilMeansNewerWithoutStore: needs the absence of a store, because the claim is false with one; `NilMeansNewer` states exactly when.
- RefresherRuns.NoRecoveryDuringCooldown: stated without a store, as the promise is; with one, a marker that is skipped clears the error.
- RefresherRuns.NoRequestBeforeLimit: excludes a deadline that a marker overtook and the store does not hold, because the claim is false for it; see `RefresherWitnesses.OvertakenIsMissed`.
- SharedStore.NoHandshakeBeforeMarkDeadline: excludes an earlier marker saved on top and a second credential fingerprint on the key, because the claim is false for both; see `SharedWitnesses.EarlierMarkLowersDeadline` and `SharedStore.ForeignFingerprintLogsIn`.
- SharedStore.GenerationsAgree: assumes one credential fingerprint on the key in question, because the claim is false with two, and no deletions; see `SharedWitnesses.TwoFingerprintsDisagree`.
- RoundTrip.RoundTrip: the refresher is part of the environment; that the replay goes out on a newer session is `RefresherRuns.ReplayOnNewerSession`.
- SharedStore.StepKeepsInv: the OTP step a login spends is not part of the state; the runs of `SharedWitnesses` leave more than one step between two logins.
- CookieJar.PersistRoundTrip: for tracked domains that are nonempty, in lower case and without a leading dot, and nonempty paths.
- AccountRetry.LockCovers: excludes endpoints that normalization changes twice, because the claim is false for them; see `LockCoverageExact`.
- Login.Login: `maxAttempts` is at least 1, as the constructor sets it.
- LockOrder.NoDeadlock: creating a pending call or reserving the slot never blocks in the code; the model lets it block, which allows more waiting than there is. A wait that is given up is not part of a path, because whoever is about to give up can step.
