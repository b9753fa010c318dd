# Ride dispatch, verified

A Dafny model of the ride-dispatch back end and proofs about it: the ride lifecycle with its
transactional event log, the matching engine with its atomic claim, the outbox relay, the promo
counter, refresh-token rotation, fares and quotes, the nightly settlement, and the request and
location guards.

`dafny verify dfyconfig.toml` checks everything.

## How it is built

Two forms of the same system are kept side by side.

* Protocols. Where the difficulty is what can happen between one await and the next, the system is a
  state machine: a process is a program counter with its local variables, one action runs one process
  from one await to the next, and `Run` folds any sequence of actions. Statements about `Run` hold for
  any number of processes in any order. `Dispatch`, `Outbox`, `PromoCounter`, `Tokens`,
  `DuplicateGuard` and `FraudGuards` are of this kind.
* Services. Code that updates stores is a class with those stores as fields and the source's methods
  and loops. The stores carry a ghost history, and their validity says that they are exactly what the
  protocol reaches by that history, so protocol theorems hold of every service run. In `World.Stores`
  every store access first lets any other processes run, as a schedule says; the contracts of
  `RidesService` and `MatchingService` therefore hold under arbitrary interference. A failing call says why
  in terms of the stores as its last access found them, so a contract fixes errors as well as successes.

| file | content |
|---|---|
| `RideStateMachine.dfy` | transition table; theory of the histories it allows |
| `Dispatch.dfy`, `DispatchLog.dfy`, `DispatchRows.dfy` | rides, claims, offers and processes; event log and milestones; what wrote each column |
| `DispatchClaim.dfy`, `DispatchRace.dfy`, `Scenarios.dfy` | first accept wins; exactly when it can fail, and that it does |
| `RideTiming.dfy` | when the transactions behind the events begin, and which events can be overtaken |
| `World.dfy`, `RidesService.dfy`, `MatchingService.dfy`, `RequestRide.dfy` | the services under interference |
| `Outbox.dfy`, `OutboxExclusive.dfy`, `OutboxService.dfy` | relay safety; exclusive claims, crashes included; the drain loop |
| `OutboxOrder.dfy`, `Consumers.dfy` | the order of delivery, and what consumers see of a ride |
| `PromoCounter.dfy`, `PromosService.dfy` | the promo counter and the request saga |
| `Tokens.dfy`, `TokenHistory.dfy`, `TokenService.dfy` | refresh-token rotation and revocation |
| `Rounding.dfy`, `Pricing.dfy`, `SurgeService.dfy`, `Sorting.dfy` | fares, quotes, price lock, surge |
| `Settlement.dfy` | the nightly sweep, in paise |
| `FraudGuards.dfy`, `TtlCounter.dfy`, `DuplicateGuard.dfy`, `DriverLocation.dfy` | limits over whole runs |

Identifiers are natural numbers. Times are integers, in milliseconds for rides, outbox, fraud and
location, in seconds for key lifetimes. Rupee arithmetic is over exact reals with `Math.round(x)` as
the floor of x + 1/2; settlement is in integer paise. What the computations come to is stated on the
columns they read (`Pricing.FareFits`, `Settlement.Settled`, `Surge.Published`, `Promos.Runs`),
apart from how they get there. A promise the deployment makes appears as a hypothesis of the lemma
that needs it (a timely claim key, a working broker); where the code can break such a promise, an
equivalence says exactly from which states and by which actions.

## Where the code and its comments differ

The model follows the code.

* First accept wins (matching.service.ts lines 31-36) rests on the 30 s claim key outliving the process
  that set it; `DispatchRace.ExpirySafeIffNoWriterInFlight` shows that this condition is exact.
* An accept that is answered with true need not have got the ride: it does exactly if the finalizing read
  found the ride open (`Matching.MatchingService.HandleDriverResponse`).
* A ride can be completed twice, with the second fare replacing the first (ARCHITECTURE.md line 51 says
  it cannot); `DispatchLog.FareFinalIffNoRewriter` says exactly when the fare is final.
* Outbox rows are stamped with the beginning of their transaction (schema/index.ts line 372) and relayed
  by that stamp, not in the order of commits. Within a ride only an event that repeats a status can be
  overtaken; consumers that ignore statuses ranking below the one they have are not disturbed.
* Claiming an outbox row does not touch its update time, so a row older than two minutes can be claimed
  while another relay is still at work on it, and a published row can return to PENDING;
  `OutboxExclusive.FinalIffClean` says exactly by which claims and writes.
* A lost promo decrement over-counts usage (promos.service.ts line 102 says it under-counts); a decrement
  that arrives after the key expired lets a cap be exceeded, by exactly as much as
  `PromoCounter.LifetimeMaximum` says; and the 90-day window does restart (line 84 says it must not).
* Two concurrent rotations of one refresh token both succeed, exactly if the second is accepted before the
  first has marked the token (`Tokens.AcceptSafeIffAlone`); and a rotation in flight outlives the
  revocation that a detected reuse triggers.
* The duplicate-pickup guard counts a burst, not a ten-minute window (`TtlCounter.LimitsAgreeIff` says
  exactly when that makes a difference), and it reads and writes its counter in two steps, so overlapping
  requests pass (`DuplicateGuard.CountsRightIffSeparate` says exactly when it counts right).

## Model

| member | source | states |
|---|---|---|
| `RideStateMachine.CanCancelIffNotTerminal` | src/modules/rides/state-machine/ride-state-machine.ts:10-39 | a ride can be cancelled exactly when its status is not terminal, and a status is terminal exactly when nothing but itself may follow |
| `RideStateMachine.TraceAscends` | src/modules/rides/state-machine/ride-state-machine.ts:14-31 | along any allowed history statuses only rank higher, and equal ranks mean the same status |
| `RideStateMachine.NoReturn` | src/modules/rides/state-machine/ride-state-machine.ts:14-31 | between two occurrences of a status nothing else occurs, so an observed status works as a version number |
| `RideStateMachine.LeftOnce` | src/modules/rides/state-machine/ride-state-machine.ts:14-31 | each status is left at most once in the life of a ride |
| `RideStateMachine.AtMostFiveChanges` | src/modules/rides/state-machine/ride-state-machine.ts:14-31 | however often a ride is written, its status changes at most five times |
| `RideStateMachine.NothingSkipped` | src/modules/rides/state-machine/ride-state-machine.ts:14-31 | a ride that was not cancelled visited every status up to the one it is in |
| `RideStateMachine.ReachesIffRanksBelow` | src/modules/rides/state-machine/ride-state-machine.ts:14-31 | status b can still follow status a if and only if they are equal or a ranks below b |
| `DispatchLog.NoSilentChange` | src/modules/rides/services/rides.service.ts:277-310 | no change without its event: over any run the log only grows, and while it does not grow no row changes |
| `DispatchLog.EventsAreSnapshots` | src/modules/rides/services/rides.service.ts:277-310 | no event without its change: every event shows rider, status, driver, fare, reason and fee of the row of its ride as they were when the event was written |
| `DispatchRows.EventColumns` | src/modules/rides/services/rides.service.ts:295-310 | in every run an event has a fare exactly if it tells of a completed ride, a reason exactly if of a cancelled one, a fee (of fifty) only then, and a driver exactly from ACCEPTED on, if the ride is not cancelled |
| `DispatchRows.RowIsWhatWasWritten` | src/modules/rides/services/rides.service.ts:264-392 | in every run each column of a ride holds what the latest committed update of its kind wrote, and nothing if there was none; rider, request time and terms are those of the request the row came from |
| `DispatchLog.AlwaysInv` | src/modules/rides/services/rides.service.ts:168-392 | after every interleaving of any processes: each row agrees with its events, and every call in flight keeps its promises |
| `DispatchLog.EveryCommitIsLegal` | src/modules/rides/services/rides.service.ts:270-290 | in every run, an update that goes through is allowed from the status the row has when it commits, not just from the one the caller read |
| `DispatchLog.LogRefinesStateMachine` | src/modules/rides/services/rides.service.ts:168-311 | the events of a ride, in commit order, are an allowed history that ends in the status of its row, and the latest event shows its rider, status, driver, fare, reason and fee as they are |
| `DispatchLog.StatusFixesMilestones` | src/modules/rides/services/rides.service.ts:313-386 | in every reachable state the status determines which columns are filled: driver and times of the milestones passed, a non-negative fare exactly when completed, a reason exactly when cancelled, and a fee of 0 or 50 |
| `DispatchLog.RunRises` | src/modules/rides/services/rides.service.ts:270-290 | whatever runs, a ride never leaves the table and its status only stays or ranks higher |
| `DispatchLog.OneWinnerPerObservation` | src/modules/rides/services/rides.service.ts:273-290 | of all calls that observed the same status and want another one, at most one commits: after it, the conditional update of every other such call fails in every later state |
| `DispatchLog.PriceLockHolds` | src/modules/rides/services/rides.service.ts:131-146 | rider, request time, locked fare, discount and stored route of a ride are never written again |
| `DispatchLog.FareFinalIffNoRewriter` | src/modules/rides/services/rides.service.ts:324-338 | the fare of a completed ride stays what it is in all continuations without a new completion request if and only if no completion is in flight that has a different fare or has yet to compute one (the stutter COMPLETED to COMPLETED is allowed) |
| `DispatchClaim.NextKeepsClaimInv` | src/modules/matching/services/matching.service.ts:286-335 | every step keeps: processes that may still write a ride that is unassigned hold its claim key, those past the check agree with an assigned driver, and all events name the driver in the row |
| `DispatchClaim.FirstAcceptWins` | src/modules/matching/services/matching.service.ts:286-335 | over every interleaving of accepts, matching jobs, retries, cancellations and crashes in which no claim key of an unassigned ride expires under a process that may still write, all events of a ride name the same driver, the one in its row |
| `DispatchRace.UntimelyExpiryAdmitsTwo` | src/modules/matching/services/matching.service.ts:286-335 | let the claim key of an open ride expire under such a process while another driver has an offer: a continuation exists in which both drivers are written |
| `DispatchRace.ExpirySafeIffNoWriterInFlight` | src/modules/matching/services/matching.service.ts:16-16 | an expiry of the claim key leaves the ride safe from a second driver in all continuations if and only if no process that may still write its driver is in flight |
| `Scenarios.FirstAcceptCanFail` | src/modules/matching/services/matching.service.ts:286-335 | such a state is reached from the empty one without any key expiring; so with one expiry two drivers can be written |
| `RideTiming.OnlyRepeatsAreOvertaken` | src/modules/rides/services/rides.service.ts:264-310 | a call reads, begins its transaction later and commits later still: if of two events of a ride the one committed last began first (or at the same moment), the other one only repeats the status the ride had |
| `RideTiming.RepeatsCanBeOvertaken` | src/modules/rides/services/rides.service.ts:264-310 | whenever two calls have seen the status a ride is in and one repeats it, the repetition can be overtaken |
| `World.Stores.SetClaim` | src/modules/matching/services/matching.service.ts:287-297 | whatever others do meanwhile, setting the key succeeds exactly when it is absent, and then it names this driver |
| `World.Stores.UpdateRide` | src/modules/rides/services/rides.service.ts:277-310 | the conditional update either leaves the columns of the patch in the row and an event that shows the row, or, and only if the status differs from the one seen, writes nothing |
| `Rides.RidesService.Transition` | src/modules/rides/services/rides.service.ts:264-311 | with any other processes running in between: success leaves every column of the patch in the row, and an event that shows the row column by column; every failure commits nothing, and its error says what was in the way: no such ride, a status the transition is not allowed from, or a status that moved during the call |
| `Rides.RidesService.DriverArrive` | src/modules/rides/services/rides.service.ts:314-316 | success means the ride is ARRIVED at the given time and has a driver; an error has its reason in the row |
| `Rides.RidesService.DriverStart` | src/modules/rides/services/rides.service.ts:319-321 | success means the ride is IN_PROGRESS at the given time, with a driver and an arrival time; an error has its reason in the row |
| `Rides.RidesService.CompleteRide` | src/modules/rides/services/rides.service.ts:324-353 | success means the ride is COMPLETED at the given time and charged what the fare row asks for the stored route (base, kilometres and minutes, or the minimum fare, surged and rounded to half rupees) less the locked discount, never below zero, however the ride changed between the reads; it fails only for want of a fare row, a ride, a legal status, or against a concurrent change |
| `Rides.RidesService.Cancel` | src/modules/rides/services/rides.service.ts:356-392 | success means CANCELLED with the given reason at the given time; the fee is 50 exactly for drivers and for riders later than two minutes after the request, otherwise 0; the refund is the locked fare less the fee; it is refused only on missing and finished rides or against a concurrent change |
| `Rides.RidesService.RateRide` | src/modules/rides/controllers/rides.controller.ts:226-236 | rating succeeds exactly on rides that are completed, leaves them so with the rating in the column of the one who gave it, and never conflicts |
| `Rides.RidesService.CreateRide` | src/modules/rides/services/rides.service.ts:168-188 | a created ride is new, REQUESTED at the given time on the given terms, every other column empty, and its event is the latest in the log; creation fails only if the row exists |
| `RequestRide.Requests.RequestRide` | src/modules/rides/services/rides.service.ts:72-166 | a successful request stores the fare its fare row asks for, surged, and the rounded route; the discount is the rounded percentage or the cap of a promo that runs and has uses left, between zero and the fare; it spends one promo use if a promo was asked for; a failed one names the guard, the fare table, the promo or the insert as its reason and leaves no use spent unless the release was lost |
| `RequestRide.Requests.RequestThenComplete` | src/modules/rides/services/rides.service.ts:110-146 | from request to completion, whatever anybody does in between: with the fare row unchanged the rider pays at most the locked fare less the discount plus surge times (0.005 per km + 0.5 per minute) plus 0.5, and without dynamic surge not less than that much below it |
| `RequestRide.Requests.LockPrice` | src/modules/rides/services/rides.service.ts:92-118 | the price lock is what the one fare row in force asks for the route, with the dynamic surge; it fails exactly when there is none |
| `Matching.ScoresAre` | src/modules/matching/services/matching.service.ts:112-117 | a candidate scores forty per star plus 60, 50, 40, 30, 20 or 10 for the first six places of the list, nothing beyond |
| `Matching.TopIsBest` | src/modules/matching/services/matching.service.ts:110-120 | the offered candidates are as many as allowed, and nobody passed over scores higher than anybody offered |
| `Matching.AssignedForGood` | src/modules/matching/services/matching.service.ts:325-328 | a driver whose acceptance was committed is the driver of the ride in every later state (no untimely expiry) |
| `Matching.MatchingService.FinalizeMatch` | src/modules/matching/services/matching.service.ts:317-335 | whatever others do meanwhile: a call that returns has assigned its driver if and only if its read found the ride open; it commits nothing but MATCHING and then ACCEPTED for its driver; an error comes before the assignment, unless updating the driver failed after it |
| `Matching.MatchingService.HandleDriverResponse` | src/modules/matching/services/matching.service.ts:258-315 | whatever others do meanwhile: an answer true means that the finalizing read, a named action of this call in the history, took place, and the driver got the ride if and only if that read found it open; if it found the ride not open the answer is true all the same; false means declined or that somebody holds the claim; an error means no offer, no open ride, a concurrent change, or a driver update that failed after the match |
| `Matching.MatchingService.MatchedIsAssigned` | src/modules/matching/services/matching.service.ts:313-328 | a driver whose acceptance a call committed is the driver in the row (no untimely expiry) |
| `Scenarios.AcceptedForNothing` | src/modules/matching/services/matching.service.ts:286-319 | it does happen: in some run an offer outlives both match and claim key, a second driver accepts it, sets the key and is through, and the ride stays with the first |
| `Matching.MatchingService.WaitForClaim` | src/modules/matching/services/matching.service.ts:244-255 | polling ends with the claim the key holds, or with none, and then the key was absent at every one of the polls that fit into the time |
| `Matching.MatchingService.HandleNoDrivers` | src/modules/matching/services/matching.service.ts:337-343 | it ends without an error only with the ride past matching, commits at most the cancellation for want of a driver, and that only on a ride that was open; it fails only on missing and finished rides or against a concurrent change |
| `Matching.MatchingService.SendOffers` | src/modules/matching/services/matching.service.ts:163-201 | hedged dispatch sends every chosen candidate an offer, best first; sequential dispatch a non-empty beginning of the list, each further one only after the claim key was absent since the offer before, and less than all only if somebody then held the claim |
| `Matching.MatchingService.MatchRide` | src/modules/matching/services/matching.service.ts:73-161 | whatever others do meanwhile: a job whose read, a named action of the history, found the ride requested and that has candidates has afterwards sent offers to the best of them (all the chosen ones in hedged mode) and after these found the claim key absent at every poll, until it named a driver, whom it then finalized, or as many polls as fit into the offer time plus 5 s had passed (in sequential mode into the windows plus 5 s, if those are shorter); only without a claim does it cancel; a ride past REQUESTED it leaves alone; a job that ends without an error leaves the ride past REQUESTED, an error has its reason in the row |
| `Outbox.RelaySafety` | src/common/events/outbox.service.ts:69-143 | for any relays, crashes, lost answers and stale claims: a published row reached the broker, a failed one used up its attempts, any other row can be claimed again once it is more than 120 s old |
| `Outbox.RowsAreForever` | src/common/events/outbox.service.ts:53-143 | no row is removed, no event changes, and what the broker took stays taken |
| `Outbox.NothingIsStuck` | src/common/events/outbox.service.ts:69-127 | from every reachable state any unfinished row can still be delivered and published by an idle relay |
| `Outbox.CrashedRelayRecovers` | src/common/events/outbox.service.ts:64-68 | not even the rows of a relay that crashed: started again it can publish them itself |
| `Outbox.ClaimIffEligible` | src/common/events/outbox.service.ts:69-99 | a claim of an idle relay goes through exactly if it takes one to a hundred different rows by creation time, each PENDING or in PROCESSING for more than two minutes |
| `OutboxExclusive.BoundedDeliveries` | src/common/events/outbox.service.ts:69-143 | while claims take rows from nobody (rows of crashed relays may be taken) and reported write errors are real, any number of relays deliver an event at most maxAttempts times, plus once per takeover |
| `OutboxExclusive.FinishedIsFinal` | src/common/events/outbox.service.ts:69-143 | under the same conditions, crashes included, a published or failed row never changes again |
| `OutboxExclusive.FinalIffClean` | src/common/events/outbox.service.ts:77-97 | exactly when an action endangers that: in everything that can follow it finished rows stay final if and only if it took no row another relay had yet to finish, and reported no error for a write that happened |
| `OutboxExclusive.PublicationUndone` | src/common/events/outbox.service.ts:89-97 | a relay that needs more than two minutes can in fact put a published row back |
| `OutboxOrder.OldestIsBatch` | src/common/events/outbox.service.ts:72-86 | the batch has the eligible rows with the earliest transactions, each once and by age; a row left out is no older than any of it, and the batch is full |
| `OutboxOrder.FailureFreeOrder` | src/common/events/outbox.service.ts:71-105 | one relay without failures delivers every event at most once and every published one exactly once; an event goes out before one that committed earlier only if its transaction began no later |
| `OutboxOrder.DrainInOrderIffNoneOvertaken` | src/common/events/outbox.service.ts:71-105 | what such a relay sends from a given point on keeps the order of commits within each ride, in all its runs, if and only if no waiting event began no later than an earlier waiting event of its ride |
| `Consumers.OnlyRepeatsComeLate` | src/modules/rides/services/rides.service.ts:264-310 | together: consumers get an event of a ride before an earlier one only if the earlier one repeats the status the ride had |
| `Consumers.ConsumersSeeLawfulHistory` | src/common/events/outbox.service.ts:26-35 | a consumer that ignores statuses ranking below the one it has sees an allowed history of every ride, whatever overtakes what |
| `Consumers.HistoryUnlessOvertaken` | src/common/events/outbox.service.ts:26-35 | as long as nothing is overtaken, consumers see exactly the beginning of the history of each ride |
| `Consumers.HistoryCanBeUnlawful` | src/common/events/outbox.service.ts:84-84 | but some run of rides and relay shows consumers ARRIVED before a repeated ACCEPTED |
| `OutboxRelay.OutboxService.RelayOnce` | src/common/events/outbox.service.ts:69-143 | it takes the oldest waiting rows, a hundred if any is left behind, and sends them in this order; a row is published exactly if its own send works (or there is no broker), otherwise it counts one attempt more and is PENDING again, or FAILED at the limit; no other row is touched; every non-empty batch uses up at least one possible dispatch per row |
| `OutboxRelay.OutboxService.Dispatch` | src/common/events/outbox.service.ts:108-144 | it changes its own row only, to PUBLISHED if the send worked and to one attempt more otherwise, and always takes something off the remaining dispatches |
| `OutboxRelay.OutboxRelayWorker.Relay` | src/common/events/outbox-relay.worker.ts:19-33 | a tick terminates and makes progress whatever the broker answers; a tick during another does nothing; with a broker that always answers it leaves no unfinished row |
| `OutboxRelay.OutboxRelayWorker.Ticks` | src/common/events/outbox-relay.worker.ts:18-33 | as many ticks as dispatches are left finish every row: published or failed; and no row was sent more than maxAttempts times |
| `OutboxRelay.OutboxService.SentWithinLimit` | src/common/events/outbox.service.ts:101-143 | at any time of a lone relay no row was sent more than maxAttempts times (one attempt is always made) |
| `OutboxRelay.NoneLeftIffFinished` | src/common/events/outbox-relay.worker.ts:18-33 | the termination measure is zero exactly when every row is published or failed |
| `PromoCounter.CounterBalances` | src/modules/promos/services/promos.service.ts:82-112 | in every interleaving the counter is net grants plus pending and lost rollbacks, less decrements that strayed in from an earlier key lifetime |
| `PromoCounter.LifetimeMaximum` | src/modules/promos/services/promos.service.ts:81-112 | the largest number of promo rides a key lifetime can come to is exactly the cap plus the requests that were between increment and end when the key expired |
| `PromoCounter.CapSafeIffNoneOutstanding` | src/modules/promos/services/promos.service.ts:81-112 | so the cap survives an expiry of the key if and only if no request is past its increment at that moment |
| `PromoCounter.FirstLifetimeHoldsCap` | src/modules/promos/services/promos.service.ts:81-90 | before the key first expires the cap holds without condition |
| `PromoCounter.CapIsTight` | src/modules/promos/services/promos.service.ts:104-116 | for every cap there is a run from the start with one request caught by an expiry and one ride too many |
| `PromoCounter.QuietBalance` | src/modules/promos/services/promos.service.ts:82-112 | when all requests are done the counter is the rides, plus decrements lost, less decrements strayed in from an earlier key lifetime |
| `PromoCounter.QuietCounter` | src/modules/promos/services/promos.service.ts:100-116 | in a key lifetime that began with no request between increment and end: when all requests are done the counter is at least the rides, and equal exactly when no decrement was lost |
| `PromoCounter.FirstLifetimeQuiet` | src/modules/promos/services/promos.service.ts:100-116 | the same before the key first expires |
| `PromoCounter.QuietSafeIffNoneOutstanding` | src/modules/promos/services/promos.service.ts:100-116 | after an expiry the quiet counter can be relied on not to fall below the rides if and only if no request was past its increment when the key expired |
| `Promos.PromosService.Redeem` | src/modules/promos/services/promos.service.ts:69-98 | a use is granted exactly when the promo is active, the time is within its dates, and uses are left in the current key lifetime; a refusal says why and leaves the counter as it was; a first use starts the 90 days |
| `Promos.PromosService.WindowEnds` | src/modules/promos/services/promos.service.ts:83-86 | after the 90 days uses start over |
| `Promos.PromosService.RequestWithPromo` | src/modules/rides/services/rides.service.ts:120-154 | a use is spent exactly when a ride comes of it, unless giving it back failed |
| `Promos.PromosService.WindowMoves` | src/modules/promos/services/promos.service.ts:83-86 | within the window, the next redeem restarts the 90 days when a released use has brought the counter back to zero |
| `Tokens.TokensBalance` | src/modules/auth/services/token.service.ts:62-91 | in every interleaving: unrotated tokens plus insertions under way or lost equal logins plus raced marks, so live tokens exceed logins by at most the races |
| `Tokens.RotationIsOneTime` | src/modules/auth/services/token.service.ts:62-91 | unless a token is accepted again while a rotation that accepted it has not marked it: one live token per login at most, one successor per token, and no more live tokens than logins |
| `Tokens.AcceptSafeIffAlone` | src/modules/auth/services/token.service.ts:67-85 | accepting a token keeps rotation one-time in all continuations without such overlaps if and only if no other rotation of the token is between its check and its mark |
| `Tokens.RaceGivesTwoSuccessors` | src/modules/auth/services/token.service.ts:67-85 | a token accepted while another rotation has accepted but not marked it gives both a live successor |
| `Tokens.OverlapIsReachable` | src/modules/auth/services/token.service.ts:67-85 | such an overlap does occur |
| `Tokens.RevocationFinalIffNoneInFlight` | src/modules/auth/services/token.service.ts:101-108 | revoking all tokens of a user is final until the next login if and only if no rotation of theirs is past its check |
| `Tokens.RevokedNeverAccepted` | src/modules/auth/services/token.service.ts:72-74 | a revoked token is never accepted again |
| `TokenIssuing.TokenService.Rotate` | src/modules/auth/services/token.service.ts:63-91 | a token that exists, is not revoked and has not expired is marked and gets one live successor in its lineage, if it was not rotated before; if it was, every token of its user is revoked; any other token changes nothing; live tokens never outnumber logins |
| `TokenHistory.ProcessesPresented` | src/modules/auth/services/token.service.ts:63-85 | in every interleaving a process gets to mark a token, or to insert its successor, only by presenting it before its expiry while it was neither rotated nor revoked, and to revoke tokens only by presenting a rotated one of that user, unexpired and unrevoked |
| `TokenHistory.NoRotationOutOfTime` | src/modules/auth/services/token.service.ts:67-91 | so no token is ever rotated or succeeded without having been presented in time |
| `TokenIssuing.TokenService.ReuseEndsAllSessions` | src/modules/auth/services/token.service.ts:76-80 | after a detected reuse none of the tokens the user had is ever accepted again, whatever anybody does later |
| `TokenIssuing.TokenService.OneLiveTokenPerLogin` | src/modules/auth/services/token.service.ts:62-91 | as calls come one at a time, each login has at most one live token and each token one successor |
| `TokenIssuing.TokenService.RevokeAllForUser` | src/modules/auth/services/token.service.ts:101-108 | every token of the user is revoked, nothing else differs |
| `TokenIssuing.TokenService.IssueAtLogin` | src/modules/auth/services/token.service.ts:36-60 | a login adds one live token of a new lineage |
| `Pricing.FareFitsIff` | src/modules/pricing/services/pricing.service.ts:135-147 | for every fare row and route the fare is the one multiple of 50 paise within 25 paise of surge times (base + rate per km + rate per minute), or of surge times the minimum fare if that sum is less |
| `Pricing.FareIsSound` | src/modules/pricing/services/pricing.service.ts:135-147 | the fare is that, not negative, and grows with distance and duration |
| `Pricing.SurgeNeverLowers` | src/modules/pricing/services/pricing.service.ts:130-132 | a dynamic surge of at least one never lowers a fare |
| `Pricing.DoubleRounding` | src/modules/pricing/services/pricing.service.ts:115-132 | rounding before and after the surge m costs at most (m + 1) / 4 rupees |
| `Pricing.DiscountFitsIff` | src/modules/rides/services/rides.service.ts:123-126 | the discount is the percentage of the locked fare rounded to half rupees, or the cap of the promo if that is less |
| `Pricing.DiscountWithinFare` | src/modules/rides/services/rides.service.ts:123-126 | the discount is within the locked fare if and only if the cap is, or fare times (percent - 100) is below 25; a percentage of at most 100 always is |
| `Pricing.PriceLockBound` | src/modules/rides/services/rides.service.ts:324-334 | the fare at completion exceeds the locked fare by at most surge times (0.005 per km + 0.5 per minute) plus 0.5, for any dynamic surge m; the locked fare exceeds it by no more without dynamic surge, and with it is at most m times that sum plus 0.25 |
| `Pricing.GetQuote` | src/modules/pricing/services/pricing.service.ts:70-128 | a quote prices exactly the active rows of the city with a type asked for, each as often as the table has it, by base fare and stably; fare, dynamic surge and waiting time of each option are what its row asks for on this route; it fails exactly when there is no such row |
| `Pricing.MatchingSplits` | src/modules/pricing/services/pricing.service.ts:84-91 | the filter looks at each row by itself and keeps the order of the table |
| `Sorting.SortStable` | src/modules/pricing/services/pricing.service.ts:97-98 | sorting keeps the order of equal keys |
| `Surge.MultiplierMonotone` | src/modules/pricing/services/surge.service.ts:82-97 | the multiplier is at least one, never falls with demand and never rises with supply |
| `Surge.LessThanAStepOver` | src/modules/pricing/services/surge.service.ts:86-97 | beyond the threshold the published multiplier exceeds the linear value by less than a step and half a cent, by less than a step if steps are whole cents, and before the cap is below it by half a cent at most; once the linear value reaches the cap it is the rounded cap |
| `Surge.CapRespectedIff` | src/modules/pricing/services/surge.service.ts:91-97 | the published multiplier respects the cap in all situations if and only if rounding the cap to two decimals does not raise it |
| `Surge.SurgeService.GetMultiplier` | src/modules/pricing/services/surge.service.ts:65-104 | one when disabled, the cached value while it lives, otherwise one step for every step begun that requests per driver exceed the threshold by, capped, in whole cents, and cached |
| `Surge.SurgeService.QuotesAgree` | src/modules/pricing/services/surge.service.ts:22-23 | quotes for a cell within one cache window agree |
| `Settlement.GroupingConserves` | src/modules/payments/services/settlement.service.ts:76-82 | the gross over the groups equals the fares of all rides with a driver |
| `Settlement.CommissionSpread` | src/modules/payments/services/settlement.service.ts:90-90 | commission on the gross of n rides differs from commissions ride by ride by at most (n + 1) / 2 paise |
| `Settlement.SharesAreSane` | src/modules/payments/services/settlement.service.ts:90-91 | for a percentage between 0 and 100 commission and net are both between zero and the gross |
| `Settlement.SettlementService.GroupByDriver` | src/modules/payments/services/settlement.service.ts:76-82 | one list per driver with rides, holding exactly their rides in order, drivers in order of first ride |
| `Settlement.SettlementService.SettleDaily` | src/modules/payments/services/settlement.service.ts:57-156 | a driver has a record, and just one, exactly if they have a ride that is COMPLETED no earlier than `since`; it holds the number and the fares of exactly these rides, and commission (to half a paisa) and net make up the gross; total gross is what was taken on all such rides; each wallet grows by its own net, once, and no other wallet moves; the wallets together grow by the total net if every driver has one |
| `Settlement.OthersDoNotCount` | src/modules/payments/services/settlement.service.ts:66-74 | a row that is not completed, or was completed earlier, is as good as absent |
| `Settlement.SettlementService.SettlesTheSame` | src/modules/payments/services/settlement.service.ts:66-156 | so a table without it gives the same records and the same wallets |
| `FraudGuards.AcceptedIffBelowLimits` | src/modules/rides/services/fraud.service.ts:68-102 | a request is accepted exactly if fewer rides than the hourly limit were requested in the hour before and fewer than the other limit are neither completed nor cancelled |
| `FraudGuards.LimitsHold` | src/modules/rides/services/fraud.service.ts:68-102 | with requests of a rider handled one at a time, every sixty minutes hold at most the hourly limit of rides and at most the limit are active at once, over whole runs |
| `FraudGuards.FinishingMakesRoom` | src/modules/rides/services/fraud.service.ts:81-102 | completing or cancelling a ride frees one of the active places |
| `FraudGuards.ChangeAddsNoActive` | src/modules/rides/services/fraud.service.ts:81-96 | a status change never makes a finished ride active again |
| `TtlCounter.CounterIsBurst` | src/modules/pricing/services/surge.service.ts:56-58 | a counter whose time to live is renewed counts the current burst |
| `TtlCounter.CounterCoversWindow` | src/modules/rides/services/fraud.service.ts:110-114 | the counter is never below the number of requests in the sliding window |
| `TtlCounter.LimitsAgreeIff` | src/modules/rides/services/fraud.service.ts:110-119 | exactly when limiting the counter is the same as limiting the sliding window: unless the last `limit` requests followed each other within the window and the one before them is too old for it |
| `TtlCounter.CounterIsWindowIff` | src/modules/rides/services/fraud.service.ts:110-114 | the counter is the number of requests in the window if and only if the first request of the burst is still in it |
| `TtlCounter.BurstOutrunsWindow` | src/modules/rides/services/fraud.service.ts:110-119 | and it can exceed that number without bound: regular requests are refused although no window holds more than two |
| `DuplicateGuard.CountsRightIffSeparate` | src/modules/rides/services/fraud.service.ts:111-115 | with any number of guard calls at once, each reading and then writing: every call counts its burst in everything that can follow without further overlaps if and only if no call reads between the read and the write of another, and no write is lost |
| `DuplicateGuard.SeparateCallsAreCovered` | src/modules/rides/services/fraud.service.ts:111-115 | so without overlaps every call counts at least the requests in its window, and request number limit + 1 is refused |
| `DuplicateGuard.OverlappingCallsPass` | src/modules/rides/services/fraud.service.ts:111-115 | whereas any number of calls that all read before one writes count one each |
| `DuplicateGuard.SilenceStartsOver` | src/modules/rides/services/fraud.service.ts:111-115 | a call after a window of silence counts only itself |
| `DuplicateGuard.CrashLeavesNoTrace` | src/modules/rides/services/fraud.service.ts:111-115 | a call that crashes between read and write leaves the counter alone and does not disturb the next one |
| `TtlCounter.Counters.GuardDuplicatePickup` | src/modules/rides/services/fraud.service.ts:104-120 | a request handled while no other call of its key is under way is refused exactly when its burst exceeds the limit; so request number limit + 1 in a window then always is |
| `TtlCounter.Counters.RecordDemand` | src/modules/pricing/services/surge.service.ts:54-59 | the demand counter of the cell becomes the length of its current burst, other cells keep theirs |
| `DriverLocation.SpeedLimitTelescopes` | src/modules/drivers/services/drivers.service.ts:197-212 | over any stretch of k accepted pings time runs forward and the end points are at most 200 km/h times the time plus 50 m per ping apart |
| `DriverLocation.DriversService.UpdateLocation` | src/modules/drivers/controllers/drivers.controller.ts:100-120 | a ping is taken exactly when no position of the last five minutes is remembered, or it is later than that one and, fifty metres aside, no farther than 200 km for each hour between; it then extends or restarts the trail |

## Left out

- Dispatch: one city, one rider app; HTTP controllers, guards, DTO validation and wiring are not modelled, so any caller may start any ride call at any time (the proofs hold for these callers too).
- Dispatch: driver status (ON_RIDE, ONLINE), the geo index and heartbeats; candidates for matching are a parameter, and so is whether the update of the driver's status works.
- Dispatch: event type strings, which do not match the contract names for every status; the status in the payload is what is modelled.
- Matching.MatchingService.WaitForClaim: the time store reads take is not modelled, only the 500 ms sleeps count towards the deadline; inside a service method a process ends early only by an error (in the protocol it may crash anywhere).
- Order of delivery under send failures: the code does not keep it, since a row whose send fails waits for the next batch while later rows of its ride go out in this one.
- RideTiming: the one assumption about the clock of the database is that a transaction begins strictly later than the answer to the read before it.
- OutboxRelay.OutboxRelayWorker.Relay: one instance, no crash and no failing status write; many relays, crashes and failing writes are covered by the lemmas about the relay protocol.
- Outbox: the broker switch is a parameter; the shipped configuration compares a boolean with a string.
- Promos.PromosService.Redeem: the increment and setting the expiry are one step, so a key left without an expiry by a crash in between is not modelled; in the class the key does not expire while a request is under way (in `PromoCounter` it may at any time); keys of different users and promos do not interact and one key is modelled.
- Tokens: hashing, signing and the access token; a token is named by its row, so the hash is taken to be injective.
- Pricing.FareIsSound: rates, minimum fare and multiplier are taken to be non-negative, which the table does not enforce; binary floating point is replaced by exact arithmetic.
- Pricing.GetQuote: the route is a parameter.
- Rides.RidesService.CompleteRide: the fare row read between the ride and the transition is a parameter.
- RequestRide.Requests.RequestRide: fraud guard, quote and fare row are read one after another, not in parallel, the guard's verdict is a parameter, and a failing insert stands for every failure of ride creation; one row per city and ride type is a constraint of the table.
- Surge.SurgeService.GetMultiplier: one cell; the cell index and the count of nearby drivers are parameters, and cache writes do not fail.
- Settlement.SettlementService.SettleDaily: payouts through the gateway, and writes to a wallet between its read and its update; successive nights are not related to each other.
- FraudGuards.LimitsHold: rides of scheduled requests and concurrent requests of one rider, which the guards do not stop; store errors, on which the guards let requests pass.
- TtlCounter.Counters.GuardDuplicatePickup: one call of a key at a time; overlapping calls and lost writes are covered by `DuplicateGuard`.
- TtlCounter.Counters.RecordDemand: the increment and the renewal of the lifetime are one step.
- DriverLocation.DriversService.UpdateLocation: check and write of a ping are one step, so two overlapping pings of one driver are not covered.
- DriverLocation.SpeedLimitTelescopes: the haversine formula is any function with the triangle inequality.
- Scheduled rides, payments, ratings, analytics, tracking, notifications, OTP and maps: these would only add easy members.
