# Session, refresh and data-integrity proofs

A Dafny model of the parts of the application whose correctness depends on interleaving, on arithmetic
or on recursion, with proofs over all inputs and all runs. `dafny verify dfyconfig.toml` checks it.

## The parts

**Refresh sessions in Redis** (`SessionStore`, `SessionWorld`, `SessionProtocol`, `SessionRuns`,
`SessionHandlers`, `SessionOutcomes`, `SessionLogout`). A session is three families of expiring keys: one
primary row per live refresh token, a 30-second grace row per rotated-out token, one member set per session
family. `SessionStore.SessionRedis` issues the Redis commands one by one and is proved against functions from
store to store. `SessionWorld` says what the keys mean: a session is a chain of tokens with rotation times,
and the whole store, now and at every later instant, is a function of those chains. `SessionProtocol` is the
transition system: any number of requests, each a program that stops at every store call, logins, two-round
logouts that may be abandoned half-way, lost replies with commands sent again, and the clock. `SessionRuns`
proves the theorems about every run. `SessionHandlers` says exactly which cookies `/refresh` and `/verify`
accept when they run alone, `SessionOutcomes` exactly when an interleaved request is accepted, and
`SessionLogout` exactly when a logout that returns normally leaves rows behind.

**Token refresh in the browser** (`ApiModule`, `ApiMachine`, `ApiRuns`, `ApiOutcomes`). The module variables of
`frontend/lib/api.ts` are fields of a class; the code between two awaits is one step of a machine with any
number of callers, refresh chains with their backoff, liveness probes, a timer, and tokens set from outside.

**Self-contained algorithms**: billing periods (`Calendar`) and the change of the cycle day against its tables
(`Billing`), decimal amounts (`Amounts`), the two audit throttles (`AuditThrottle`), the category backfill
(`CategorySeed`, `CategoryCatalogue`, `CategoryFloor`, `CategoryMigration`), paging (`Pagination`), the
forwarded-for walk (`ForwardedFor`), redaction (`Redaction`).

Code that updates state in place is a class or a method with a loop, proved against a function; the
theorems are about that function.

## Where the code does less than it is meant to

Each of these is a lemma with the exact condition.

- `/verify` accepts every token inside its own grace window, `/refresh` only tokens one rotation behind: the
  catch-up follows one grace row and demands that the successor still have a primary row. Two rotations
  within 30 seconds therefore strand a tab, though the grace rows lead to the live token
  (`SessionHandlers.EndpointsDisagreeExactly`, `SessionHandlers.TwoQuickRotationsStrandATab`). The design
  note (specs/2026-05-17-backend-session-model.md:430) says the loser converges on the live primary.
- Issuing a session writes its primary row unconditionally, while rotation guards it with NX: an issue keeps
  the live rows exactly when its token is not live or names the very same row
  (`SessionStore.IssueKeepsLiveRowsIffFresh`).
- The Redis client sends a command again, once, when no answer arrives. A throttle's `SET NX EX` that was
  executed unanswered then answers itself with nil, and its own audit row is held back. A row is held back
  although no call let one through in the window exactly when the stamp it met was left by such a command and
  no call ended unanswered (`AuditThrottle.HeldBackForNothingIff`); the very first call can do it
  (`AuditThrottle.OneCallCanSilenceItsKey`). The function's comment says evidence is never lost
  (backend/app/routers/admin_subscriptions.py:81-86).
- A Round A that was executed unanswered and sent again reads an empty list. The logout then returns normally
  without Round B: the session is out, but its rows stay until their deadlines
  (`SessionLogout.LogoutLeavesRowsIff`, `SessionLogout.ALostReplyLeavesTheRow`).
- A logout decided by a liveness probe discards whichever token is in place when the caller resumes. Over a
  run, no token store moved between the probe's departure and the discard exactly when no step in between
  stored or cleared one; then the discarded token is the probed one, and when it is another, a step in between
  put it there and comparing it with the probe's token would have shown it
  (`ApiRuns.LogoutDiscardsTheProbedTokenIff`, with a run in `ApiRuns.AFreshTokenCanBeDiscarded`).
- Saving a cycle day fails, or has no effect, when another period of the organisation has the computed start,
  or when moving the open period would give a category two budgets (`Billing.SavedIff`). After closing a
  period early even the day in force cannot be saved again, and another day reopens dates that a closed
  period holds (`Billing.ReopenedPeriodOverlapsIff`, with dates in `Billing.ClosingEarlyLocksTheCycleDay`);
  moving the start forward leaves dates in no period (`Billing.DateIsLostIff`).
- The projected period end is meant to be the day before the next occurrence of the cycle day. It is, exactly
  when the start's day is not before the cycle day and its year is 100 or later
  (`Calendar.EndPrecedesNextOccurrenceIff`). A period that starts in mid-month after an early close overshoots:
  from 15 May with cycle day 20 the projection is 19 June (`Calendar.MidMonthStartsOvershoot`). The years 1
  to 99 are read by the JavaScript Date constructor as 1900 to 1999 (`Calendar.EndBelongsToItsPeriodIff`,
  `Calendar.EarlyYearsAreReadAsLaterOnes`).
- `equalsAmount` tells a zero written with a minus from one without
  (`Amounts.EqualsAmountIsNumericExceptNegativeZero`).
- The backfill succeeds exactly when every organisation has each floor reached or lacks an item that helps
  it (`CategoryMigration.MigrationSucceedsIff`). One system row of the wrong type under the income slug stops
  it (`CategoryMigration.AMisfiledIncomeMasterBlocksTheMigration`).

## Assumptions

- The clock is monotone, and one MULTI/EXEC or script runs at one instant. Times are milliseconds; a key is
  visible strictly before its deadline.
- A signed-in session has a new sid and a new first jti. A jti minted for a rotation is new, or repeats one
  whose primary row is live, which is the case the script guards. Nothing is assumed for the lemmas in
  `SessionStore`.
- The batch of a login may land again before its cookie has left the server, so before the session's first
  rotation (`LoginAgain`). A Round B that lands again deletes nothing more.
- A throttle call's two sendings lie within one window; the client's time limits allow a few seconds
  (backend/app/redis_client.py:258-306).
- Session lifetimes are whole days from 1 to 365 and the grace window is 30 seconds.
- Requests may present any claims at all, whether or not they were ever issued.
- A refresh in the browser succeeds only with a non-empty token, as the code demands.
- Requests that change the billing cycle of one organisation do not interleave.

## Model

| member | source | states |
|---|---|---|
| SessionStore.SessionRedis.SessionIssue | backend/app/redis_client.py:468-474 | the three commands of a fresh issue, run in order with Redis's expiry rules, give exactly the store `Issue` describes |
| SessionStore.SessionRedis.RotateScript | backend/app/redis_client.py:590-618 | the script's reply is the verdict of its three guards, and its five writes, or none of them, give exactly the store `Rotate` describes |
| SessionStore.SessionRedis.ReadAndDropFamily | backend/app/redis_client.py:714-721 | Round A returns the members that were visible and removes the family set and nothing else |
| SessionStore.SessionRedis.DropRows | backend/app/redis_client.py:731-736 | the Round B loop removes the primary and grace rows of exactly the listed tokens |
| SessionStore.RotateConsumesItsToken | backend/app/redis_client.py:590-618 | on any store, a reply other than ok writes nothing; ok needs a live member, and in the store it leaves the token is dead at every later instant and no rotation of it can win |
| SessionStore.RotateOverwritesNothingLive | backend/app/redis_client.py:602-611 | on any store and for any minted token, a live primary row survives a rotation unless it is the one rotated out |
| SessionStore.IssueKeepsLiveRowsIffFresh | backend/app/redis_client.py:468-474 | an issue leaves every live row alone if and only if its token is not live or already has that same row |
| SessionStore.IssueWritesExactly | backend/app/redis_client.py:468-474 | on any store and at any later instant: the new row and its family end together, the family has its old members and the new one, every other key is as it was |
| SessionStore.RotationWritesExactly | backend/app/redis_client.py:608-618 | on any store and at any later instant: the old row is gone, its grace row names the new token for exactly 30 s, the new row and the family end together, all else stays |
| SessionStore.KeyNamesAreInjective | backend/app/redis_client.py:442-451 | the three key families cannot collide in one keyspace when identifiers hold no colon |
| SessionWorld.IssueRefines | backend/app/redis_client.py:468-474 | a login keeps the store a function of the chains, at every later instant |
| SessionWorld.ReissueRefines | backend/app/redis_client.py:468-474 | a login's batch that lands again only moves the session's deadline |
| SessionWorld.VerdictIsChainVerdict | backend/app/redis_client.py:590-606 | the script answers revoked, already rotated, collision or ok exactly as the chain says: not a live member, not the last token, a repeated token, otherwise |
| SessionWorld.RotateRefines | backend/app/redis_client.py:608-618 | a winning rotation extends its chain by one token, moves the session's deadline, and keeps the store a function of the chains at every later instant, even when the lifetime setting changed |
| SessionWorld.RoundAReadsTheWholeChain | backend/app/redis_client.py:714-722 | Round A sees a family exactly when the session is active and not run out, and then reads every token the session ever had |
| SessionWorld.RoundARefines | backend/app/redis_client.py:714-717 | after Round A the rows stay as they were until cleaned and the family is gone |
| SessionWorld.RoundBRefines | backend/app/redis_client.py:731-735 | cleaning the list Round A read leaves no row of the session at any later instant |
| SessionWorld.OnlyTheLastTokenIsLive | backend/app/redis_client.py:596-617 | while a family lives, its last token is its one and only live primary row |
| SessionWorld.GraceChainReachesTheLiveToken | backend/app/redis_client.py:608-617 | while the family lives, every row after a live grace row is live, and following successors ends, after as many hops as there are later tokens, at the session's last token |
| SessionWorld.RowsNeverOutliveTheirFamily | backend/app/redis_client.py:609-616 | at any later instant a visible row belongs to a visible family holding its token, or to a logged-out session not yet cleaned |
| SessionProtocol.OrgSessionTtlSeconds | backend/app/security.py:51-86 | whatever the stored setting, the lifetime is between one and 365 days, so always longer than the grace window |
| SessionProtocol.LifetimeIsIff | backend/app/security.py:79-86 | the lifetime is so many days if and only if they are stored and in range, or are the default and nothing in range is stored |
| SessionProtocol.RotateStepSound | backend/app/routers/auth.py:484-497 | a rotation by a request, reply lost or not, keeps store, history and pending clean-ups in step, and the request's new stage true |
| SessionProtocol.ReadStepSound | backend/app/routers/auth.py:805-914 | what a request has learnt from a read stays true of the chain whatever others do before its next call |
| SessionProtocol.StepKeepsInv | backend/app/redis_client.py:454-736 | every step of any client keeps the store a function of the chains, every request's knowledge true and every pending list a whole chain; history only grows |
| SessionRuns.EveryReachableStoreIsItsChains | backend/app/redis_client.py:454-736 | in every reachable state the primaries, grace rows and family sets are exactly those the chains prescribe |
| SessionRuns.HistoryGrows | backend/app/redis_client.py:590-618 | between any two states of a run chains are only extended, owners stay and logged-out sessions stay out |
| SessionRuns.RevocationIsFinal | backend/app/redis_client.py:714-736 | at every instant after Round A both family probes fail and any visible row of the session is one that was there when Round A landed |
| SessionRuns.CleanupIsComplete | backend/app/redis_client.py:729-736 | at every instant after Round B no primary or grace row of the session is visible |
| SessionRuns.NothingIsAdmittedAfterLogout | backend/app/routers/auth.py:875-914 | after Round A no request of the session, begun later or in flight, passes the validator (where `/verify` accepts), the rotation or the catch-up |
| SessionRuns.OneLogoutGetsTheList | backend/app/redis_client.py:714-727 | of all logouts of one session in a run at most one is handed members to clean |
| SessionRuns.WinnerExtendsTheChain | backend/app/redis_client.py:596-618 | a winning rotation consumes the last token of its chain and appends the minted one |
| SessionRuns.SingleWinner | backend/app/redis_client.py:596-618 | over a whole run each token is rotated successfully at most once, lost replies included |
| SessionRuns.AcceptedRefreshesConverge | backend/app/routers/auth.py:1219-1300 | all accepted refreshes of one token, winner, loser or grace, hand out the same cookie for the same session and user |
| SessionRuns.EveryRowIsCovered | backend/app/redis_client.py:691-736 | every visible row, now and later, is a member of a visible family or on the list of a logout whose Round B is still to come |
| SessionRuns.TheWorldIsFree | backend/app/redis_client.py:454-736 | in every reachable state anybody may sign in, begin a request, log out or wait, and an orphaned session can be cleaned, so the runs leave nothing out |
| SessionRuns.ClockAndStoreMoveSo | backend/app/redis_client.py:478-557 | only the clock moves the clock, and reading calls leave the store as it was |
| SessionHandlers.ValidatorIsTheChain | backend/app/routers/auth.py:805-914 | the shared validator takes the primary path exactly for the newest token and the grace path exactly for older tokens inside their window |
| SessionHandlers.VerifyAcceptsExactly | backend/app/routers/auth.py:1316-1357 | `/verify` accepts the newest token and every token inside its own grace window, and nothing else |
| SessionHandlers.CatchUpIsOneHop | backend/app/routers/auth.py:584-649 | the catch-up succeeds exactly when the token is one rotation behind |
| SessionHandlers.RefreshAcceptsExactly | backend/app/routers/auth.py:1102-1311 | `/refresh` accepts exactly the newest token, unless both minted tokens collide, and one a single rotation behind inside its window; the newest is answered with the minted token, the spare on a collision, appended to its chain; a double collision is answered 503 and writes nothing; every other request is answered 401 and writes nothing |
| SessionHandlers.EndpointsDisagreeExactly | backend/app/routers/auth.py:592-617 | the endpoints disagree on exactly the tokens two or more rotations behind inside their window, from each of which grace rows lead to the newest token, and on the newest token at a double collision |
| SessionHandlers.TwoQuickRotationsStrandATab | backend/app/routers/auth.py:1146-1170 | the smallest such run: two refreshes within the window, then the first cookie again |
| SessionOutcomes.ReadThwartedIff | backend/app/routers/auth.py:592-914 | in any reachable state a read answers a request of a session with 401 exactly when the chain says so: no grace row, logged out or run out, or a successor that is not the newest token; never with 503 |
| SessionOutcomes.RotateThwartedIff | backend/app/routers/auth.py:1181-1217 | a rotation answers 401 exactly when the session is logged out or run out, and 503 exactly when the second try collides on a live session's newest token |
| SessionOutcomes.StepFollowsTheChain | backend/app/routers/auth.py:805-1289 | a request of a session moves only by its own answered calls, each to the very stage its session's chain tells |
| SessionOutcomes.UnboundIsRefused | backend/app/routers/auth.py:856-873 | a cookie that names no session, or not its user, gets no further than its grace row |
| SessionOutcomes.ReprobeFindsGraceIff | backend/app/routers/auth.py:1227-1240 | a loser's re-probe finds the grace row exactly while its window is open and the session is not cleaned up |
| SessionOutcomes.TurnedAwayIff | backend/app/routers/auth.py:1102-1311 | in any run a request of a session, not stopped from outside, ends with 401 if and only if one of its own calls was thwarted, and with 503 if and only if two of its rotations collided |
| SessionOutcomes.NewestTokenIsAcceptedIff | backend/app/routers/auth.py:1102-1311 | under any interleaving, a request that presents the newest token and runs to its end is accepted if and only if none of its calls was thwarted and its rotations did not collide twice, and then with its token's successor |
| SessionOutcomes.RequestsMakeSevenCalls | backend/app/redis_client.py:258-264 | in any run a request of a session makes at most seven answered store calls, and one more for a collision |
| SessionOutcomes.RequestsAreNeverStuck | backend/app/routers/auth.py:1102-1311 | in every reachable state a request that is not over can make its next call |
| SessionOutcomes.StoppedRequestsEnd | backend/app/routers/auth.py:821-825 | a refusal from outside ends a request with 401, a store that does not answer with 503, and the store is untouched |
| SessionOutcomes.RaceWithinGraceIsAccepted | backend/app/routers/auth.py:1146-1289 | whoever rotates the token, reply lost or not: while the session lives, its chain grows by at most one token and the request ends inside that grace window, it is accepted with the token's successor |
| SessionOutcomes.UndisturbedRequestIsAccepted | backend/app/routers/auth.py:1172-1311 | while its session lives, its token stays the newest and no token minted for it repeats another, a request that ends is accepted whatever others do |
| SessionLogout.OrphanedIff | backend/app/redis_client.py:714-736 | in any run a session is orphaned if and only if a Round A has taken its list and no Round B has come since |
| SessionLogout.RowsRemainIff | backend/app/redis_client.py:468-618 | in any reachable state a session has a visible row if and only if it is not cleaned up and its deadline has not passed |
| SessionLogout.LogoutLeavesRowsIff | backend/app/redis_client.py:712-736 | after a logout returned normally rows of the session are left if and only if the deadline has not passed and an earlier Round A, its own unanswered one or another's, had taken the list with no Round B since |
| SessionLogout.ALostReplyLeavesTheRow | backend/app/redis_client.py:724-725 | a login, a Round A executed unanswered and the same one sent again: a normal return, and the row stays |
| ApiModule.TimerIsNeverEarly | frontend/lib/api.ts:216-240 | a timer is due in the future, in the second that leaves exactly 60 s, and fired then or later finds the token near its expiry |
| ApiModule.ApiState.ScheduleProactiveRefresh | frontend/lib/api.ts:216-240 | takes the timer of the handle off the browser's list and schedules the one the current expiry calls for, or none |
| ApiModule.ApiState.TimerCallback | frontend/lib/api.ts:232-233 | a timer that fires leaves the browser's list and drops the handle, whichever it is |
| ApiModule.ApiState.SetAccessToken | frontend/lib/api.ts:140-144 | stores token and expiry and reschedules, leaving the singleflight fields alone |
| ApiModule.ApiState.JoinRefresh | frontend/lib/api.ts:532-536 | shares the refresh in flight or starts one, and counts the caller in before it waits |
| ApiModule.ApiState.LeaveRefresh | frontend/lib/api.ts:540-545 | counts the caller out; only the last one out of that promise forgets it |
| ApiModule.ApiState.EnsureFreshAccessToken | frontend/lib/api.ts:263-269 | waits exactly when a usable token is near its expiry, and otherwise changes nothing |
| ApiModule.RefreshAccessToken | frontend/lib/api.ts:420-430 | for any outcomes and any budget R: at most R+1 attempts, the first outcome that is not transient or else the last, and a total backoff of base * (2^(attempts-1) - 1) |
| ApiModule.DefaultBackoffs | frontend/lib/api.ts:26-27 | a refresh that keeps failing makes its attempts 250 ms and 500 ms apart |
| ApiMachine.StepKeepsSingleflight | frontend/lib/api.ts:263-281 | every stretch of every caller keeps the counter, the promise and the set of waiters in step |
| ApiMachine.StepKeepsAskers | frontend/lib/api.ts:584-599 | a caller awaits a probe only after its refresh ended terminally |
| ApiMachine.StepKeepsProbes | frontend/lib/api.ts:592-598 | at most one probe is in flight, and it is the one shared |
| ApiMachine.StepKeepsTimer | frontend/lib/api.ts:216-240 | every step keeps the browser's list equal to the handle's timer, due for the token in place |
| ApiMachine.FiringIsNeverIdle | frontend/lib/api.ts:232-239 | a timer that fires is the handle's, leaves no other behind, and starts or joins a refresh; fired in its own second it leaves exactly 60 s |
| ApiOutcomes.StoringSchedulesIff | frontend/lib/api.ts:216-240 | storing a token leaves a timer pending if and only if, in a browser, it is usable and its known expiry more than 60 s away; due 60 s before that |
| ApiMachine.OnlyLogoutClearsTheToken | frontend/lib/api.ts:600-629 | the token disappears only by an outside sign-out or a terminal refresh with an unconfirmed probe; never on the proactive path or a transient outcome |
| ApiMachine.StepKeepsAttempts | frontend/lib/api.ts:420-430 | interleaved chains never exceed their retry budget |
| ApiMachine.StepKeepsLog | frontend/lib/api.ts:607-614 | the token in place is the last one stored, and a new announcement needs a token stored since the last |
| ApiRuns.ReachableIsSound | frontend/lib/api.ts:126-281 | all of these hold together in every reachable state |
| ApiRuns.RefreshesAreSingleflight | frontend/lib/api.ts:526-545 | in every reachable state the counter is the number of waiters, the promise is held exactly while there are any, all hold it, and two chains are never under way together |
| ApiRuns.StretchesRunOut | frontend/lib/api.ts:420-430 | a chain has between 0 and 8 stretches left, 0 exactly when settled; each of its own, whatever the outcome, lowers that and nobody else's changes the chain |
| ApiRuns.ChainsEnd | frontend/lib/api.ts:420-430 | in every run a chain performs at most eight stretches, and at most as many as it had left |
| ApiRuns.WaitersAreServed | frontend/lib/api.ts:526-545 | in every reachable state a waiter has an enabled step to wait for: a stretch of its chain, of which at most eight are left and every possible one brings it nearer to its end, or its own resumption once settled |
| ApiRuns.LogoutsAreJustified | frontend/lib/api.ts:584-615 | over a run each announced logout follows a terminal refresh and an unconfirmed probe |
| ApiRuns.LogoutsAreSpaced | frontend/lib/api.ts:602-614 | between two announced logouts a token was stored |
| ApiRuns.OnlyTheHandlesTimerIsPending | frontend/lib/api.ts:216-240 | in every reachable state the browser has a timer pending exactly when it is the handle's, so at most one, and it belongs to the expiry of the token in place |
| ApiRuns.TimersAreNeverIdle | frontend/lib/api.ts:232-239 | in a run every firing leaves its caller waiting for a refresh, with at most 60 s left |
| ApiRuns.StoresBetween | frontend/lib/api.ts:140-144 | between two states of a run the last store moves exactly when a step between them stores, and a changed token was put there by one of them |
| ApiRuns.ProbesKeepTheirToken | frontend/lib/api.ts:439-450 | a probe stays the probe of the token it left with |
| ApiRuns.LogoutDiscardsTheProbedTokenIff | frontend/lib/api.ts:592-610 | for the step that sends a probe and the step that discards a token on its answer: the last store is the same if and only if no step between stored or cleared one, and then the probed token is discarded; a different one was put there by a step between |
| ApiRuns.AFreshTokenCanBeDiscarded | frontend/lib/api.ts:599-614 | an eleven-step run in which a just refreshed token is discarded on an older probe's answer |
| ApiOutcomes.SettledChainsFollowTheRule | frontend/lib/api.ts:420-430 | in any run a settled chain has met just the replies after which the retry loop stops, and its result is the last: the first that is not transient, or the third transient one |
| ApiOutcomes.LogoutsWereRefused | frontend/lib/api.ts:584-615 | an announced logout names a refresh one of whose attempts the server refused for good, and a probe whose answer did not confirm the session |
| ApiOutcomes.LostTokensWereRefused | frontend/lib/api.ts:600-629 | a step takes the token away only from outside, or for a caller with such a refusal and such a probe; failing to reach the server never does |
| ApiOutcomes.CallersStartSo | frontend/lib/api.ts:263-281 | a request refreshes before it is sent if and only if it is not for an auth endpoint and the token in place is at most 65 s from its expiry; a focus handler if and only if the token is |
| ApiOutcomes.RepliesAreTakenSo | frontend/lib/api.ts:518-545 | a reply makes the caller refresh if and only if it is a 401 and not to a credential check |
| ApiOutcomes.WaitersGoOnSo | frontend/lib/api.ts:547-629 | by the replies its refresh met a caller is done, sent, sent again, asks for a probe, or fails as unavailable after three failures; no token is lost at that step |
| ApiOutcomes.ProbesAreConcludedSo | frontend/lib/api.ts:599-618 | a confirmed session ends the caller with its reply; otherwise a token still in place is taken away and the logout announced, once |
| ApiOutcomes.TokensAreStoredSo | frontend/lib/api.ts:409-413 | the token in place is the one handed over or brought by a refresh; no other reply changes it |
| ApiOutcomes.CallersAreNeverStuck | frontend/lib/api.ts:460-630 | in every reachable state a caller that is not done has an enabled step to take or wait for, whatever the server's next reply |
| ApiOutcomes.TheWorldIsFree | frontend/lib/api.ts:216-281 | any reply, token, request and due timer may come at any time, so the runs leave nothing out |
| Calendar.StartIsTheLatestCycleDay | backend/app/routers/settings.py:172-177 | the start is the latest date on or before today with the cycle day; it fails exactly when there is none |
| Calendar.PeriodsTileTheCalendar | frontend/lib/format.ts:30-37 | start and projected end enclose today, the next day starts the next period, and the interval holds exactly the dates with this start |
| Calendar.EndBelongsToItsPeriodIff | frontend/lib/format.ts:34-36 | the projected end lies in its start's own period if and only if the start is in year 100 or later |
| Calendar.EndPrecedesNextOccurrenceIff | frontend/lib/format.ts:28-37 | from any start the projected end is the day before the next occurrence of the cycle day if and only if the start's day is not before it and the year is 100 or later |
| Calendar.MidMonthStartsOvershoot | frontend/lib/format.ts:34-35 | from 15 May 2026 with cycle day 20 the projection is 19 June, not 19 May |
| Calendar.EarlyYearsAreReadAsLaterOnes | frontend/lib/format.ts:34 | a start in the years 1 to 99 gets the end of the same date 1900 years later |
| Calendar.YearsAndMonthsAreGregorian | backend/app/routers/settings.py:176 | the lengths of years and months agree with counting days from 1 January of year 1 |
| Calendar.NextDayIsTheSuccessor | backend/app/routers/settings.py:176 | stepping a day is the successor in date order, across month ends, leap Februaries and years |
| Billing.BillingTables.GetCurrentPeriod | backend/app/services/billing_service.py:22-76 | the latest open period, else a new one committed at once, else, when its start is taken, the rolled-back books and the period found there |
| Billing.BillingTables.UpdateBillingCycle | backend/app/routers/settings.py:154-189 | statement by statement against both unique keys and one transaction, the request commits exactly the books `Saved` describes, or leaves them as they were |
| Billing.SavedIff | backend/app/routers/settings.py:166-188 | a day is saved if and only if today has a start for it, no other period of the organisation has that start, and, when the start moves, no category has budgets at both starts |
| Billing.MovedKeyedIff | backend/app/routers/settings.py:181-186 | moving the budgets keeps their key unique if and only if the start stays or no category has one at both starts |
| Billing.SavingKeepsTheBooks | backend/app/routers/settings.py:164-178 | saving keeps both unique keys and valid dates and writes the new day and one period only, the current one moved or a new one, open at the latest cycle day |
| Billing.BudgetsFollowThePeriod | backend/app/routers/settings.py:181-186 | after a save a budget of the organisation at the old start is at the new one, every other budget is as it was, and none of the organisation is left behind |
| Billing.ABudgetFollowsItsPeriod | backend/app/routers/settings.py:181-186 | May 2026: the budget of the moved period moves, one of another start and one of another organisation stay |
| Billing.ReopenedPeriodOverlapsIff | backend/app/routers/settings.py:168-178 | after a save the open period shares a date with a closed one if and only if the new start is not after that one's end and it has begun |
| Billing.DateIsLostIff | backend/app/routers/settings.py:178 | a date only the open period held is in no period afterwards if and only if it lies before the new start |
| Billing.ClosingEarlyLocksTheCycleDay | backend/app/services/billing_service.py:169-201 | May 2026 after an early close: the day in force cannot be saved, another one is saved with an overlap |
| Amounts.NormalizeIsIdempotent | frontend/lib/format.ts:44-51 | normalising twice is normalising once, for every string |
| Amounts.NormalizeKeepsTheAmount | frontend/lib/format.ts:44-51 | on decimal strings the sign flag and the rational magnitude survive, and the result is a decimal string |
| Amounts.CanonicalPartsAreUnique | frontend/lib/format.ts:48-50 | a magnitude has only one canonical form |
| Amounts.EqualsAmountIff | frontend/lib/format.ts:40-42 | two decimal strings compare equal exactly when sign flags and magnitudes agree |
| Amounts.EqualsAmountIsNumericExceptNegativeZero | frontend/lib/format.ts:40-51 | that is numeric equality except for two zeros of different sign |
| AuditThrottle.DictThrottle.ShouldEmit | backend/app/routers/admin_users.py:77-91 | the decision and the whole new dictionary; after an emission no stamp is older than 240 s |
| AuditThrottle.SharedThrottle.ShouldPersist | backend/app/routers/admin_subscriptions.py:92-106 | persists when nothing was sent or the last sending got no answer, and otherwise exactly when its SET NX EX wrote; a command executed unanswered and sent again meets its own key |
| AuditThrottle.DictRemembersEnough | backend/app/routers/admin_users.py:81-90 | after any trace the collected dictionary suppresses a key exactly when some emission of it lies within the window |
| AuditThrottle.StoreRemembersEnough | backend/app/routers/admin_subscriptions.py:97 | after any trace of interleaved sendings, failed, unanswered or answered, the expiring keys suppress exactly when some stamp lies within the window |
| AuditThrottle.DictionaryKeepsTheRule | backend/app/routers/admin_users.py:77-91 | every decision over a trace is that of a rule that forgets nothing |
| AuditThrottle.SharedStoreKeepsTheRule | backend/app/routers/admin_subscriptions.py:92-106 | every decision over such a trace is that of the rule; when all sendings are answered it is the dictionary's |
| AuditThrottle.HeldBackForNothingIff | backend/app/redis_client.py:287-306 | a row is held back with none let through in the window if and only if it was answered, the stamp it met was left by a command executed unanswered and sent again, and no call for the key ended unanswered |
| AuditThrottle.StampsOwnerEmitsIff | backend/app/routers/admin_subscriptions.py:96-106 | a held-back row met some call's stamp, and that call let its own row through unless its command was executed unanswered and then answered |
| AuditThrottle.OneCallCanSilenceItsKey | backend/app/routers/admin_subscriptions.py:87-90 | the first call of all holds its own row back, and so does every answered call for the rest of the window |
| CategorySeed.CategoryTable.SeedOrg | backend/alembic/versions/037_categories_floor_backfill.py:262-320 | the nested loops write exactly what one walk over masters, children and transfer writes |
| CategorySeed.CategoryTable.UpgradeOrg | backend/alembic/versions/037_categories_floor_backfill.py:333-345 | an organisation above its floor is skipped untouched, one below it is seeded; the verdict is that of the rows afterwards |
| CategorySeed.CategoryTable.Upgrade | backend/alembic/versions/037_categories_floor_backfill.py:323-360 | answers no exactly when some organisation stays below its floor at its turn; otherwise every organisation has been upgraded in order and reaches its floor |
| CategorySeed.CategoryTable.RunMigration | backend/alembic/env.py:33-36 | an upgrade that fails leaves the table as it was |
| CategorySeed.UnderFloorIff | backend/alembic/versions/037_categories_floor_backfill.py:253-259 | an organisation is below its floor exactly when one of the four kinds has no row |
| CategorySeed.LookupAfterMaster | backend/alembic/versions/037_categories_floor_backfill.py:291-300 | the skip after a missed look-up never happens |
| CategoryCatalogue.SystemCategoriesAreAddressed | backend/alembic/versions/037_categories_floor_backfill.py:63-189 | the 65 slugs of the shipped catalogue are pairwise different texts, and none is `transfer` |
| CategoryCatalogue.CatalogueItems | backend/alembic/versions/037_categories_floor_backfill.py:278-320 | the walk over such a catalogue meets each slug once and masters before their children |
| CategoryFloor.ExactlyTheMissingAreWritten | backend/alembic/versions/037_categories_floor_backfill.py:278-320 | every missing item gets a row of its slug and kind under its master's row, every new row is that of a missing item, and earlier rows are unchanged |
| CategoryFloor.MissingSlugsAppearOnce | backend/alembic/versions/037_categories_floor_backfill.py:278-320 | each missing slug gets exactly one system row; every other slug and every other organisation keeps its count |
| CategoryFloor.SeedingTwiceIsSeedingOnce | backend/alembic/versions/037_categories_floor_backfill.py:265-266 | a second run inserts nothing |
| CategoryFloor.SeedReachesFloorIff | backend/alembic/versions/037_categories_floor_backfill.py:344-354 | after seeding a floor is reached if and only if it was before or some missing item helps it |
| CategoryFloor.FittingRowsReachTheFloor | backend/alembic/versions/037_categories_floor_backfill.py:262-320 | when existing system rows fit the catalogue, seeding reaches all four floors |
| CategoryMigration.MigrationSucceedsIff | backend/alembic/versions/037_categories_floor_backfill.py:332-360 | the migration succeeds if and only if, in the table it starts from, every organisation has each floor reached or lacks an item that helps it |
| CategoryMigration.OthersAreUnaffected | backend/alembic/versions/037_categories_floor_backfill.py:192-203 | seeding one organisation changes nothing another one's floors depend on |
| CategoryMigration.AMisfiledIncomeMasterBlocksTheMigration | backend/alembic/versions/037_categories_floor_backfill.py:345-354 | with one system row, an expense master under the income slug, seeding stays below the floor and the migration fails |
| CategoryMigration.ReadyTablesUpgrade | backend/alembic/versions/037_categories_floor_backfill.py:332-360 | when every organisation is above its floor or fits the catalogue, the whole migration brings all of them there and keeps every earlier row |
| CategoryMigration.NothingToUpgrade | backend/alembic/versions/037_categories_floor_backfill.py:334-336 | run again on organisations at their floor, the migration changes nothing |
| Pagination.FetchAll | frontend/lib/pagination.ts:18-33 | against a list that may change between requests, the loop collects the pages the requests bring, stops at the first short one, and fails on a refused request |
| Pagination.FetchesUntilAShortPage | frontend/lib/pagination.ts:25-31 | whatever happens to the list between requests: the rows of the requests in order, all but the last page full, until a page is not or the budget is spent |
| Pagination.TwentyThousandRowsArrive | frontend/lib/pagination.ts:22-25 | with pages of 200 a list arrives whole if and only if it has at most 20000 rows |
| Pagination.StableListsArriveWhole | frontend/lib/pagination.ts:25-31 | a list that stands still arrives in order, every row once, up to 100 pages, with min(100, length/pageSize + 1) requests; it is whole exactly when it fits |
| ForwardedFor.EntriesJoined | backend/app/rate_limit.py:93-101 | splitting and trimming distribute over a comma |
| ForwardedFor.WalkFindsTheLastUntrusted | backend/app/rate_limit.py:149-151 | the walk finds an untrusted entry with only trusted ones to its right, and nothing exactly when all are trusted |
| ForwardedFor.EntriesAreTrimmed | backend/app/rate_limit.py:93-101 | every entry is non-empty and has no white space at its ends |
| ForwardedFor.PrefixDecidesOnlyWithoutAnUntrustedEntry | backend/app/rate_limit.py:131-162 | behind a trusted peer, unless the platform's header decides, text put before a header changes the resolved address only if the header has no untrusted entry; otherwise it is the header's last untrusted entry |
| ForwardedFor.ForwardedForMattersIff | backend/app/rate_limit.py:131-162 | some forwarded-for header changes the resolved address if and only if the peer is ours, the platform's header does not decide, and some possible entry is untrusted and not the address resolved without one |
| ForwardedFor.PublicPeersSpeakForThemselves | backend/app/rate_limit.py:160-162 | behind a peer that is not ours no header matters, save the platform's own in its mode |
| ForwardedFor.AddressInEachCase | backend/app/rate_limit.py:131-162 | the address itself: the platform's header in its mode; behind a peer of ours the last untrusted entry, else the platform's header, else the peer; any other peer itself; 127.0.0.1 without one |
| Redaction.RedactedIsClean | backend/app/main.py:326-342 | at every depth a sensitive key holds nothing but the marker |
| Redaction.RedactFixesExactlyTheClean | backend/app/main.py:326-342 | the walk leaves a value as it is if and only if it is clean |
| Redaction.RedactIsIdempotent | backend/app/main.py:326-342 | redacting twice is redacting once |
| Redaction.RedactKeepsTheRest | backend/app/main.py:326-342 | outside sensitive fields every path leads where it led, to the same scalar, keys or length; inside one only to the marker |
| Redaction.RequestValidationHandler | backend/app/main.py:376-384 | every error comes back in order with its location and other members; if any position of its location names a sensitive field its input is the marker, otherwise it is redacted; no input comes back unclean |
| Redaction.SanitizedErrorsAreClean | backend/app/main.py:345-384 | an input is gone altogether if any position of the location names a secret, and otherwise unchanged if and only if it was clean |
| Redaction.TheseFieldsAreHidden | backend/app/main.py:304-323 | the value of each of the ten sensitive fields becomes the marker |

## Left out

- Corrupt JSON in a session row (`session_validate` and `session_grace` treat it as a miss): only the application writes these rows.
- `get_client`, `_retire_poisoned_client` and `close_client`: connection plumbing. What the client's retry means, a command executed unanswered and sent again, is modelled for the rotation script, the login batch, Round A and the throttle.
- Sessions: decoding and signing of tokens, the user-active, issued-at and absolute-lifetime checks and the choice among several refresh cookies. In the step relation they appear only as a request refused or failed at any point (`Stop`).
- SessionHandlers.RefreshAcceptsExactly: speaks of one request run at one instant; interleaved requests are the subject of `SessionRuns`.
- SessionRuns.AcceptedRefreshesConverge: compares the token inside the cookie, not the rest of the signed text.
- SessionStore.KeyNamesAreInjective: takes from the minting code that identifiers hold no colon.
- ApiModule.ApiState.ScheduleProactiveRefresh: the expiry is a whole number of seconds, and the 2^31 ms limit of the browser's timer is not modelled.
- The retried fetch's outcome, request timeouts, headers, thrown network errors of the first fetch and the telemetry events of `apiFetch`: they touch none of the shared variables.
- Calendar: parsing and printing of ISO dates, time zones, non-integer cycle days and the administrator check.
- Billing.BillingTables.GetCurrentPeriod: a second request creating the same period between the look-up and the insert; requests that change the cycle of one organisation run one after the other here.
- Billing.BillingTables.UpdateBillingCycle: what the response says; the contract is about what is committed.
- Category names and descriptions, MySQL collation (slugs are compared as texts) and the printed summary.
- Pagination.FetchAll: a reply that is not an array, a page size of zero as the server's error, and non-integer sizes are not modelled.
- ForwardedFor: parsing of addresses and networks (`trusted` is any predicate on non-empty text), and white space outside the characters a header can carry.
- Redaction: HTTP response encoding; numbers are represented by integers, which the walk never looks at.
- AuditThrottle.SharedThrottle.ShouldPersist: other calls between its two sendings are the subject of the trace lemmas; key texts and the dictionary's lock are not modelled.
- The services behind the routers, React components, styling, infrastructure and schema-only migrations are not part of this model, apart from the look-up of the current billing period: the services take their hard cases from database queries, the rest has no state worth a proof.
