# Ticket watcher, modelled and proved

A Dafny model of the background engine of the ticket watcher: the poll that
records history and raises alerts, the tables it works on, the two rate
limiters, the scheduler with its worker pool and shutdown, the normalisation of
Ticketmaster's sale calendar, the alert email, and the unsubscribe token.
`dafny verify dfyconfig.toml` checks everything.

## How it is built

- **Tables.** `AlertStore` gives each SQL statement a meaning as a function on
  table contents, and a class `Store` whose methods are those statements. Any
  call may fail; a failed call changes nothing. A store built `reliable` never
  fails, which is what lets `ProcessEvent` promise success.
- **The worker, three ways.** `Worker.ProcessEvent` is the imperative code: calls
  on a store that may fail, loops over watches and kinds, an early return for
  every error. `AlertEngine.Advance` is the same poll one call at a time, and
  `AlertEngine.CompletePoll` the same poll in one piece. The method is proved to
  take only steps of `Advance`; an undisturbed sequence of those steps that ends
  without an error is proved to be one `CompletePoll`.
- **Two notions of run.** `ClaimLedger` interleaves any number of jobs, call by
  call, with crashes, failures and everything users do (including deletions and
  changes of consent). `SerialPolls` runs polls one after another with user
  actions in between; a poll there completes, or stops at any call through a
  failure or a crash. The code deduplicates neither history rows nor the on-sale
  flip through the claim table: history is accounted for in `SerialPolls`, the flip
  there and, for interleaved runs, in `FlipLedger`. `WatchSignal` reads the log for
  one watch and says what one call does to its alerts; `RepeatedFlips` holds the
  two runs in which a flip is mailed twice. `DueAlerts` says what one completed poll
  owes, from the row before it, the answer, the clock and the watch alone.
- **Logs.** A ghost log records claims won, alerts sent, withheld or lost with a
  crashed job, and evaluations. The notifier's outbox is proved equal to the sent
  part of it.
- **Limiters.** `TokenBucket` states what is assumed of golang.org/x/time/rate:
  exact rationals, full at first, linear refill up to the burst, no refill at a
  rate that is not positive, and a reservation cancelled at the instant it was made
  leaves only the refill.
  `IpLimiter` and `DailyQuota` hold the two limiter classes, their specification
  functions, and the limiters they are compared with (one that never forgets a
  bucket, one counter per class reset exactly at midnight).
- **Processes.** `Pipeline` is the jobs channel, scheduler, workers and main as
  one machine over channel operations. `EventScheduler` is one scheduler tick as
  imperative code, with other goroutines moving between its statements, and
  every statement is proved to be a step of that machine.
- **Text.** `BoldMarkup` spells out the regular expression and both renderings;
  `EmailBodies` assembles the two bodies and contains the reader of HTML that the
  text body is compared with.

## What the proofs say about the code

Most of what the documentation promises holds. These are the places where the
code does not meet a promise, with the exact condition each time.

- **Forgetting idle buckets** can be noticed, and the advertised rate exceeded,
  if and only if `burst > rate * ttl`. The shipped defaults are on the safe side.
- **The daily budget** can be overrun by refunds that arrive after midnight for
  calls reserved before it. In every trace the calls of a day exceed the budget by
  no more than those refunds, and a refund is harmless in every trace containing it
  if and only if no midnight lies between it and its reservation.
- **The independence of the two classes** fails because the clock is read twice in
  one reset. Given what a class has done so far, its next look at the clock keeps its
  answers independent in every trace that goes on from there, with no later look at
  fault, if and only if no midnight lies between the two readings, or the class had
  already looked at the clock on the day of the first one, or the quota was made on
  that day. The same condition decides whether its counter stays the grants less the
  effective refunds of the day. It is about all such traces: a single one may come
  out right without it.
- **The sale label** "can never disagree" with the alerts only while the event
  date lies ahead: the label ignores the date.
- **The sentinel year** is looked for in the timestamp's own zone, so a time in the
  first hours of UTC year 9999 is stored exactly when its stamp is written in a zone
  far enough behind UTC to read 9998: a public start if no TBD or TBA flag is set, a
  sale end always, a presale when every usable window is such a stamp. With zones
  less than a day off UTC, nothing later than that first day is ever stored.
- **The on-sale flip** is exempt from the claim table because it "is already
  once-per-transition". Over every interleaved run the on-sale alerts of a watch
  are its rising recorded flips, plus the flips recorded when another job had
  already recorded the signal as on sale, plus one for each job that ended, by a
  failed call or a crash, after the flip was out and before its signal was stored,
  plus those that are between the two right now. There is one alert per rising flip
  if and only if the last three are zero. With one job at a time the second is
  always zero, so there only a job ending between the two repeats a flip. Both ways
  of repeating one do occur.
- **History** is complete, at every moment of a serial run, if and only if watch
  creation never stores an answer for an event that is already there with another
  availability (two creations racing, or an answer under a different id than the
  one asked for) and no poll with a changed availability stops between its history
  row and its update of the event.
- **The email header** differs between the two bodies exactly when the expression
  for bold accepts something in what follows the last bold of the name, venue
  included: the text body leaves the venue's asterisks alone. A venue without two
  asterisks in a row never makes a difference.

## Model

| member | source | states |
|---|---|---|
| Ticketmaster.ToSnapshot | internal/ticketmaster/client.go:162-210 | the loop over presales and the field updates compute the snapshot that the lemmas below describe |
| Ticketmaster.EarliestIsFirstMinimum | internal/ticketmaster/client.go:196-208 | the stored presale is the first listed window among those opening at the least usable time, and none only if no window is usable |
| Ticketmaster.EarliestIgnoresOrder | internal/ticketmaster/client.go:196-208 | the stored presale time does not depend on the order of the list |
| Ticketmaster.NormaliseDescribes | internal/ticketmaster/client.go:162-236 | TBD holds exactly for a sentinel or a TBD or TBA flag, a stored public start or end is exactly a usable stamp's instant, the presale is the earliest, the event date is any parsed stamp's instant, and a missing status becomes unknown |
| Ticketmaster.SentinelYearBegins | internal/ticketmaster/client.go:212-213 | the sentinel year begins as many days after 1970 as the calendar has it |
| Ticketmaster.UtcYearLeaksExactly | internal/ticketmaster/client.go:215-229 | a public start in UTC year 9999 is stored exactly when the stamp's zone is far enough behind UTC |
| Ticketmaster.SaleEndLeaksExactly | internal/ticketmaster/client.go:162-229 | a sale end in UTC year 9999 is stored exactly when its stamp's zone is far enough behind UTC |
| Ticketmaster.PresaleLeaksExactly | internal/ticketmaster/client.go:196-229 | a presale in UTC year 9999 is stored exactly when some window has such a stamp and every usable one has |
| Ticketmaster.LeaksStayWithinADay | internal/ticketmaster/client.go:178-229 | no stored time lies later than the first day of UTC year 9999 |
| Ticketmaster.UtcYearCanLeak | internal/ticketmaster/client.go:215-229 | one such stamp |
| Ticketmaster.SaleEndCanLeak | internal/ticketmaster/client.go:162-229 | the same stamp as a sale end, stored although the sale is unannounced |
| Ticketmaster.PresaleCanLeak | internal/ticketmaster/client.go:196-229 | the same stamp as the opening of a presale, stored |
| Evaluator.VerdictReportsExactlyWhatIsDue | internal/evaluator/evaluator.go:103-172 | each kind is reported if and only if its own condition holds, never twice, and the close flag and the signal are exact |
| Evaluator.VetoesStandAlone | internal/evaluator/evaluator.go:107-145 | a past event reports nothing, a cancelled or moved one exactly one kind, closed never together with open |
| Evaluator.QuietRaisesNothing | internal/evaluator/evaluator.go:81-86 | an observation with nothing newer than the watch raises nothing once the stored signal is on sale |
| SaleLabel.LabelAgreesWithVerdict | internal/service/watch.go:98-131 | for an event not past, cancelled, rescheduled and closed labels are shown exactly when their kind is raised, and an opening is never raised under a label denying it |
| SaleLabel.LabelIsTheOneShown | internal/service/watch.go:108-130 | each of the nine labels is shown if and only if its own condition on the stored calendar holds, and exactly one is |
| SaleLabel.LabelDisagreesExactlyWhenPast | internal/service/watch.go:98-131 | a shown announcement goes unreported exactly when the event is past |
| SaleLabel.LabelCanDisagree | internal/service/watch.go:98-131 | one such event: cancelled with its date passed, shown as cancelled and reported to no watch |
| AlertStore.PerformKeepsConsistent | internal/store/migrations/0006_sale_milestones.sql:30-35 | every user action keeps the foreign keys and never reuses an id |
| AlertStore.UpsertIsExact | internal/store/queries/queries.sql:55-81 | storing a fetched event overwrites the row with its id, date included and next poll time kept, or adds one that is due at once, and touches no other row |
| AlertStore.DeletionIsExact | internal/store/migrations/0006_sale_milestones.sql:30-35 | deleting a watch or a user takes exactly their watches and the claims on them |
| AlertStore.Store.GetEvent | internal/store/queries/queries.sql:83-84 | the stored row, or a failure |
| AlertStore.Store.InsertAvailabilitySnapshot | internal/store/queries/queries.sql:117-120 | one history row appended, or nothing changed |
| AlertStore.Store.MinPollIntervalForEvent | internal/store/queries/queries.sql:111-115 | the least interval among active watches, attained by one of them, or the default when there is none |
| AlertStore.Store.UpdateLatest | internal/store/queries/queries.sql:98-109 | the calendar and next poll time of one event, and no other row, change |
| AlertStore.Store.ListActiveWatchesForEvent | internal/store/queries/queries.sql:129-136 | every active watch of the event exactly once, joined with its owner's consent, in any order |
| AlertStore.Store.ClaimWatchAlert | internal/store/queries/queries.sql:207-214 | one row the first time, none after, failure for a deleted watch |
| AlertStore.Store.RecordEvaluation | internal/store/queries/queries.sql:158-160 | the signal of one watch and nothing else |
| AlertStore.Store.RecordNotified | internal/store/queries/queries.sql:162-165 | the notified stamp of one watch and nothing else |
| AlertStore.Store.CloseWatchesForEvent | internal/store/queries/queries.sql:219-222 | exactly the watches of the event become paused |
| AlertStore.Store.ListDueEvents | internal/store/queries/queries.sql:89-96 | due events with an active watch, earliest first, and none left out that is earlier than one listed |
| AlertStore.Store.GetEventByTMID | internal/store/queries/queries.sql:86-87 | an event with that id exactly when there is one |
| Worker.Worker.ProcessEvent | internal/worker/worker.go:75-144 | every call it makes is a step of the poll, in order; without an error it has done one whole poll, and the next is due when the shortest wait any active watch asked for has passed, or after 300 seconds if none did or the store failed; on a reliable store it succeeds; the outbox is the sent part of the log |
| Worker.Worker.Observe | internal/worker/worker.go:84-107 | reads the row, fetches, and inserts a history row only on a change, ending the poll at the first failure |
| Worker.Worker.ChooseNext | internal/worker/worker.go:109-113 | the shortest wait asked for, 300 seconds when there is no watch, and as a fallback for a failed or non-positive interval only |
| Worker.Worker.Reschedule | internal/worker/worker.go:115-131 | stores the new calendar and next poll time in one step |
| Worker.Worker.EvaluateWatches | internal/worker/worker.go:148-244 | goes through every listed watch and closes the event if any verdict says so, stopping at the first failure |
| Worker.Worker.SettleVerdict | internal/worker/worker.go:172-223 | goes through the kinds of one verdict in order, skipping lost claims |
| Worker.Worker.TryClaim | internal/worker/worker.go:177-187 | a won claim leads to delivery, a lost one to the next kind, a failure to the end |
| Worker.Worker.MailOrWithhold | internal/worker/worker.go:189-222 | a verified owner who has not unsubscribed gets exactly one alert, of this kind about this watch, anyone else none, and the stamp follows |
| Worker.Worker.RecordVerdict | internal/worker/worker.go:225-229 | the signal is stored after the kinds are settled |
| AlertEngine.LoopStepKeepsRemainder | internal/worker/worker.go:161-243 | no call inside the loop changes where the poll will end, unless it ends it with an error |
| AlertEngine.UndisturbedJobCompletesPoll | internal/worker/worker.go:78-244 | a job that runs undisturbed to its end without an error has done exactly one poll in one piece |
| ClaimLedger.LedgerHolds | internal/worker/worker.go:172-219 | over every interleaved run and for every kind but the on-sale flip, wins equal fates plus claims still held, and no pair has two winners |
| ClaimLedger.EachMilestoneSettledOnce | internal/worker/worker.go:172-198 | no two entries of any run settle the same watch and kind, the on-sale flip excepted, so none is sent twice and none once withheld is ever sent |
| ClaimLedger.EveryWinIsAccountedFor | internal/worker/worker.go:177-223 | a won claim is still held or has exactly one fate, and no other job touched the pair |
| ClaimLedger.NothingSettledUnclaimed | internal/worker/worker.go:172-198 | every kind but the on-sale flip is settled only by a job whose win of it stands earlier in the log |
| ClaimLedger.FlipIsNeverClaimed | internal/worker/worker.go:246-258 | over every run no job comes to claim an on-sale flip and none is ever won or added to the claim table, so no claim can stop a flip |
| ClaimLedger.AlertsHadConsent | internal/worker/worker.go:189-198 | at some earlier moment of the same run the watch of every alert sent was active and its owner verified and not unsubscribed, by the tables |
| ClaimLedger.RowsWereListed | internal/worker/worker.go:156-162 | a job only ever works on rows that were in the tables at an earlier moment of the run |
| ClaimLedger.SoloJobIsARun | internal/worker/worker.go:58-73 | an undisturbed job is a run of the interleaved system |
| SerialPolls.HistoryLosesNothing | internal/worker/worker.go:97-131 | if nothing is overwritten and no poll stops between row and update, seed plus history rows is the sequence stored with repetitions removed |
| SerialPolls.HistoryCompleteExactlyWhen | internal/worker/worker.go:97-131 | over every serial run, failed and crashed polls included, history is complete at every moment if and only if no block of the run breaks it: none overwrites a stored availability, none stops between row and update with a changed one |
| SerialPolls.BlockKeepsHistoryExactly | internal/worker/worker.go:97-131 | block by block: a poll that completes, one that stops, or a user action keeps a complete history complete if and only if it is not one of those two |
| SerialPolls.HistoryShowsTheTransitions | internal/worker/worker.go:97-107 | the rows shown have no equal neighbours and exactly the changes of the availabilities stored |
| SerialPolls.OverwriteHidesTransition | internal/store/queries/queries.sql:68-81 | after an overwrite, the next poll sees a new availability and records no row for it |
| SerialPolls.StopBetweenHappens | internal/worker/worker.go:100-131 | from every state in which the availability has changed, a poll can stop between its row and its update by one failed call |
| SerialPolls.StopBetweenBreaksHistory | internal/worker/worker.go:100-131 | after it, the next poll records no row for the way back, or the same availability a second time |
| SerialPolls.PollOnWatch | internal/worker/worker.go:161-243 | a completed poll evaluates each active watch of its event exactly once and leaves every other watch alone |
| SerialPolls.StopsAreRuns | internal/worker/worker.go:78-144 | a poll can stop at a call in a serial run exactly when the interleaved system has a run in which its job takes those calls and is ended there by a failed call or a crash, with the same tables and log left behind |
| SerialPolls.FlipsAreRisingEdges | internal/evaluator/evaluator.go:164-169 | over any serial run, pauses, failures and crashes included, recorded on-sale flips are rising edges of the stored signal, each is mailed or withheld once, and every further on-sale alert belongs to a poll that stopped between alert and stored signal |
| SerialPolls.OnsaleAlertsBounded | internal/worker/worker.go:189-229 | the on-sale alerts of a watch are at most the rising edges of its signal plus the polls that stopped between alert and stored signal, and equal to its recorded flips if and only if there is no such poll |
| SerialPolls.SilentWatchStaysSilent | internal/evaluator/evaluator.go:132-169 | a watch whose signal is on sale raises nothing in any number of polls, completed or not, whose answers show nothing newer than it at the moment they are read |
| SerialPolls.DeadEventIsClosed | internal/worker/worker.go:161-242 | a completed poll of an event whose stored date has passed, or whose answer says cancelled, leaves it without active watches, and adds no alert if the date has passed; any other poll pauses and resumes no watch, and none touches another event's |
| SerialPolls.ClosedEventIsNeverDue | internal/store/queries/queries.sql:89-96 | without active watches an event is never due again, over every run in which nobody resumes or creates a watch |
| DueAlerts.OwedIsReported | internal/worker/worker.go:115-171 | the kinds a poll reports to a watch are exactly those owed by the row before the update, the answer, the clock and the watch; an announcement compares with the public start before the update |
| DueAlerts.EveryDueKindIsSettled | internal/worker/worker.go:172-223 | every kind owed and not already claimed is mailed to a verified owner who has not unsubscribed and withheld from any other, a flip whatever is claimed |
| DueAlerts.OnlyDueKindsAreSettled | internal/worker/worker.go:161-223 | whatever a completed poll claims, mails or withholds is owed to an active watch of the event and had not been claimed before |
| DueAlerts.PollRecordsTheAnswer | internal/worker/worker.go:225-229 | the stored signal is whether the answer was on sale, and a flip is recorded exactly when one was owed |
| DueAlerts.PollSchedulesTheNext | internal/worker/worker.go:109-131 | after a poll the event is due again from the chosen time on and not before, as long as a watch is active on it, and no other row has changed |
| WatchSignal.FlipsAreSeparated | internal/evaluator/evaluator.go:164-169 | two rising flips have an evaluation not on sale between them, and there are no more of them than rising edges |
| WatchSignal.MoveIsBalanced | internal/worker/worker.go:172-229 | any one call of any job keeps on-sale alerts, recorded flips and flips still to be recorded in balance, unless it ends the job with an error |
| FlipLedger.AlertsAreAccountedFor | internal/worker/worker.go:172-229 | over every interleaved run the on-sale alerts of a watch are its recorded flips, those left out by jobs that ended early, and those out at this moment |
| FlipLedger.OnsaleAlertsExactly | internal/worker/worker.go:246-258 | there is one alert per rising flip if and only if no flip was overtaken, left out or is out now, and the exact excess otherwise |
| FlipLedger.OvertakenMeansOverlap | internal/worker/worker.go:156-229 | a flip is overtaken only if, between the job's listing of the watch and its record of it, another job recorded that watch |
| FlipLedger.SequentialAlertsBounded | internal/worker/worker.go:225-258 | with one job at a time, whatever fails and whatever users do meanwhile, on-sale alerts are at most the rising edges plus jobs that ended between alert and stored signal, and one per recorded flip if and only if no job ended or stands there |
| FlipLedger.CreatedWatchBegins | internal/store/queries/queries.sql:122-127 | a watch created at any moment of any run starts there with no alert, no evaluation and no job holding it, so these counts hold for it from then on |
| RepeatedFlips.FlipIsMailedTwice | internal/worker/worker.go:246-258 | from every fresh state with such a watch, two overlapping jobs without any failure mail the one transition to on sale twice |
| RepeatedFlips.FlipIsMailedAgain | internal/worker/worker.go:200-229 | from every such state, one job after another: the first fails at the notified stamp, or crashes there, and the second mails the same transition again |
| RepeatedFlips.BothReach | internal/worker/worker.go:119-128 | two jobs of one event both get as far as the mail before either has stored the signal |
| StoredCalendars.SentinelNeverStored | internal/ticketmaster/client.go:178-229 | every row of every interleaved run has the calendar it started with, or that of a wire event received in that very run: TBD as that event says and then no start, its own usable start and end, its earliest usable presale |
| StoredCalendars.NoTimeBeyondTheSentinel | internal/ticketmaster/client.go:178-229 | over tables that began empty no row ever holds a time later than the first day of the sentinel year, nor a start for an unannounced sale |
| WatchService.Create | internal/service/watch.go:163-239 | each error in its place, nothing done unless the store failed part way, a fetch only for unknown events, and a new watch on the event asked for, or on the one the fetch answered with, its signal seeded from the stored row, and the event due at once on a reliable store |
| WatchService.ResolveEvent | internal/service/watch.go:184-212 | the known event with the id asked for, or, if there is none, the fetched one stored now |
| WatchService.CheckAllowance | internal/service/watch.go:171-182 | refused exactly at or above a positive allowance, never without one, and then the store is not asked |
| WatchService.Subscribe | internal/service/watch.go:214-238 | the seeded watch, with a fallback interval, and the event due at once, or nothing at all for a missing user |
| WatchService.InsertSeeded | internal/service/watch.go:218-230 | one new watch row, seeded with whether the event is on sale at that moment |
| WatchService.MakeDue | internal/service/watch.go:232-236 | the event is due at once, or nothing changed when the store fails |
| WatchService.Update | internal/service/watch.go:282-302 | only the status of the caller's own watch changes, never its signal; a failure to read the event back is reported although the update took place, every other failure changes nothing |
| WatchService.WatchingAnOnsaleEventIsSilent | internal/service/watch.go:218-227 | subscribing to an event already on sale is never followed by an alert about it while nothing newer happens |
| WatchService.StoredLabelAgrees | internal/service/watch.go:98-131 | the label of the row a poll has just stored agrees with what that poll owes any watch |
| TokenBucket.TakeKeepsRange | internal/ratelimit/ip.go:69-79 | a bucket stays between empty and full |
| TokenBucket.WaitIsExact | internal/ratelimit/ip.go:69-78 | a refused caller that stays quiet is refused at every moment before the advertised wait is over and granted from then on; with no positive rate it is told to wait for ever and is refused for ever |
| TokenBucket.GrantedWereHeld | internal/ratelimit/ip.go:69-79 | tokens granted at one instant were in the bucket |
| IpLimiter.IPLimiter.constructor | internal/ratelimit/ip.go:40-51 | per-minute rate turned into per-second, burst at least one, ten minutes of idling |
| IpLimiter.IPLimiter.Allow | internal/ratelimit/ip.go:55-80 | for every rate, positive or not: sweep, find or make the bucket, take or refuse with the wait, as the specification step says |
| IpLimiter.IPLimiter.SweepLocked | internal/ratelimit/ip.go:84-94 | at most once per ttl, exactly the buckets idle for longer are dropped and the rest kept as they are |
| IpLimiter.EvictionIsInvisible | internal/ratelimit/ip.go:55-94 | with burst at most rate times ttl, every decision and wait equals those of a limiter that never forgets |
| IpLimiter.EvictionInvisibleExactlyWhen | internal/ratelimit/ip.go:55-94 | that condition is also necessary |
| IpLimiter.EvictionIsVisible | internal/ratelimit/ip.go:84-94 | otherwise a burst, a pause and a second burst show the difference |
| IpLimiter.RateBound | internal/ratelimit/ip.go:53-80 | in any interval a key is granted at most a burst plus rate times its length, across refusals and evictions |
| IpLimiter.RateBoundExactlyWhen | internal/ratelimit/ip.go:36-94 | the rate bound holds for all runs exactly under the same condition |
| IpLimiter.TwoBurstsExceedRate | internal/ratelimit/ip.go:84-94 | otherwise two whole bursts are granted in less time than the rate allows |
| IpLimiter.MemoryIsBounded | internal/ratelimit/ip.go:82-94 | after every call each tracked bucket was used within twice the ttl, so there are no more buckets than keys called in that window |
| IpLimiter.DefaultsAreInvisible | internal/config/config.go:65-66 | ten a minute, bursts of five and ten minutes of idling satisfy the condition |
| DailyQuota.DailyQuota.Reserve | internal/ratelimit/quota.go:59-68 | resets first if due, then counts one call, or refuses exactly when the class's own budget is used up |
| DailyQuota.DailyQuota.Release | internal/ratelimit/quota.go:71-77 | gives one call back if there is one, and never resets |
| DailyQuota.DailyQuota.Remaining | internal/ratelimit/quota.go:80-88 | resets if due and answers what is left of the class's own budget, never below zero |
| DailyQuota.DailyQuota.Snapshot | internal/ratelimit/quota.go:91-103 | resets if due and returns usage, budgets and the next reset |
| DailyQuota.DailyQuota.ResetIfDue | internal/ratelimit/quota.go:105-110 | counters cleared and a new midnight set exactly when the old one is reached |
| DailyQuota.Limiter.Acquire | internal/ratelimit/limiter.go:27-36 | refused without a trace exactly when the class's own budget is used up, otherwise one call counted, and given back when the wait is cancelled; whatever others do during the wait, the quota ends as the trace of these operations leaves it |
| DailyQuota.DaysOfAnyLengthAreACalendar | internal/ratelimit/quota.go:112-115 | the assumption made of midnights is met by days of any lengths in any zone, each beginning where the one before ends |
| DailyQuota.LazyTracksEager | internal/ratelimit/quota.go:59-110 | the shared, lazily reset counters answer each class as a counter of its own, reset exactly at midnight, would |
| DailyQuota.ClassesDoNotInterfere | internal/ratelimit/quota.go:59-110 | deleting all operations of one class changes no answer given to the other, as long as a midnight between two readings of that other class finds nothing due, because it has looked at the clock on the day before |
| DailyQuota.MidnightBetweenReadingsInterferes | internal/ratelimit/quota.go:105-110 | with a midnight between the two readings of the first operation of a day, any positive budget and whatever the class did before, the other class does change an answer |
| DailyQuota.IndependentExactlyWhenSteady | internal/ratelimit/quota.go:59-110 | given the class's own operations so far, its answers stay independent in every trace that goes on with given readings if and only if no midnight lies between them, or the class had already looked at the clock on the day of the first, or the quota was made on it |
| DailyQuota.CountersAreExact | internal/ratelimit/quota.go:59-88 | on every day the counter is grants less effective refunds, between zero and the class's own budget |
| DailyQuota.CountersRightExactlyWhen | internal/ratelimit/quota.go:59-110 | given the class's own operations so far, that account is right in every trace that goes on with given readings if and only if they keep the classes independent |
| DailyQuota.RemainingIsExact | internal/ratelimit/quota.go:79-88 | whatever straddled a midnight before, the answer is the class's budget less the calls in force, and exactly so many further reservations that day succeed, at whatever readings of the clock |
| DailyQuota.EachClassHasItsBudget | internal/ratelimit/quota.go:41-68 | of a quota made with two budgets: of the reservations that open a day for a class, exactly as many are granted as that class's own budget says, whatever happened on days before |
| DailyQuota.OutstandingExactly | internal/ratelimit/limiter.go:27-36 | a reservation is outstanding exactly when it was granted that day and never refunded |
| DailyQuota.OverrunIsBounded | internal/ratelimit/quota.go:59-77 | in every trace, operations straddling a midnight included, outstanding calls of a day exceed the budget by at most the refunds of earlier days' reservations |
| DailyQuota.BudgetCanBeOverrun | internal/ratelimit/quota.go:70-77 | for every positive budget and every two days, one such refund lets one call more than the budget through |
| DailyQuota.BudgetKeptExactlyWhen | internal/ratelimit/quota.go:59-77 | no day's outstanding calls exceed the budget in any trace whose refunds fall on their reservation's day or at the given pair of moments, if and only if no midnight lies between that pair |
| Pipeline.NoPanicAndFifo | cmd/api/main.go:79-94 | over every interleaving nothing is sent on or closed twice, the queue stays within capacity, and sends are receives followed by the queue |
| Pipeline.ShutdownLosesNothing | cmd/api/main.go:114-125 | at shutdown complete every id ever enqueued was received in order and its one ProcessEvent call has returned |
| Pipeline.RunsAreBounded | internal/worker/worker.go:58-73 | a run is no longer than the work at hand plus what its ticks add |
| Pipeline.ShutdownNeverStuck | cmd/api/main.go:114-125 | after cancellation something other than the ticker can move until shutdown is complete |
| Pipeline.ShutdownTerminates | cmd/api/main.go:114-125 | after cancellation a run that only the ticker could extend is complete, and the steps to get there are bounded |
| Pipeline.TickIsARun | internal/scheduler/scheduler.go:63-72 | a tick that stops for one of its three reasons is a run of the machine |
| EventScheduler.Shared.WorkerMoves | internal/worker/worker.go:64-71 | a worker takes the oldest job or finishes one, without touching the scheduler's side |
| EventScheduler.Shared.Offer | internal/scheduler/scheduler.go:64-71 | one select: with others moving first, it sends or gives up, and gives up only when cancelled or full |
| EventScheduler.Scheduler.Tick | internal/scheduler/scheduler.go:50-73 | lists as many due events as the polls left of the poll budget and the per-tick cap allow, leaving one out only when that many are listed, and sends a prefix; it stops short only when full or cancelled, and every statement is a step of the machine |
| EventScheduler.Scheduler.List | internal/scheduler/scheduler.go:58-62 | the limit is the budget truncated to 32 bits, an error if that is negative |
| EventScheduler.Int32DropsTurns | internal/scheduler/scheduler.go:58 | the truncated limit is the 32-bit integer that differs from it by whole multiples of 2^32 |
| EventScheduler.Scheduler.Enqueue | internal/scheduler/scheduler.go:63-72 | the loop of sends, whatever the other goroutines do in between |
| BoldMarkup.MatchIsShortest | internal/notifier/render.go:25 | a match is the shortest the expression accepts at its place, and there is none only if it accepts none |
| BoldMarkup.ParseCutsAtTheScan | internal/notifier/render.go:25-34 | a line is cut at exactly the leftmost, shortest, non-overlapping matches, until none is left |
| BoldMarkup.ScanIsUnique | internal/notifier/render.go:25-34 | the expression leaves no choice in where these are |
| BoldMarkup.ExpandingKeepsTheCut | internal/notifier/render.go:30-34 | escaping first and looking for bold afterwards finds the bold of the line itself, for any escaping that leaves asterisks and newlines alone |
| BoldMarkup.EscapeIsTame | internal/notifier/render.go:33 | HTML escaping is such an escaping |
| BoldMarkup.MarkedIsSource | internal/notifier/render.go:25 | a line with two asterisks for both ends of each bold stretch is the line it was cut from |
| EmailBodies.EscapeIsFree | internal/notifier/render.go:33 | no angle bracket and no quote of either kind survives escaping |
| EmailBodies.EscapeRoundTrip | internal/notifier/render.go:33 | decoding once gives back what was escaped |
| EmailBodies.HtmlSaysThePlainText | internal/notifier/render.go:27-34 | for every string, the HTML line without tags and decoded once is the plain line, every '<' in it is one of its own balanced strong tags, and with two asterisks for each of these tags it is the string itself |
| EmailBodies.ShowsAnchor | internal/notifier/render.go:161 | the link leads exactly to the event address, whatever characters it holds |
| EmailBodies.BuildBodies | internal/notifier/render.go:138-164 | a reader of the HTML body sees the text body line by line, with one link, to the event address, in place of the address; one who marks emphasis with two asterisks sees name, venue and lines as they were given |
| EmailBodies.HeadersAgreeExactly | internal/notifier/render.go:145-146 | the two headers agree exactly when the expression accepts nothing in what follows the last bold of the name, venue included |
| EmailBodies.UnmarkedVenueAgrees | internal/notifier/render.go:145-146 | for a venue without two asterisks in a row they agree, whatever the name |
| EmailBodies.BoldVenueDiffers | internal/notifier/render.go:145-146 | a venue in bold is a case where they differ |
| EmailBodies.PlainLosesOnlyMarks | internal/notifier/render.go:28 | plain text is shorter by four characters per bold stretch, and is the line itself without any |
| UnsubscribeToken.IntRoundTrip | internal/auth/unsubscribe.go:29-48 | every 64-bit integer, both extremes included, is printed without a dot and parsed back |
| UnsubscribeToken.TokenRoundTrip | internal/auth/unsubscribe.go:28-49 | every printed token is accepted and names its id, for every secret and any MAC |
| UnsubscribeToken.TokensAreDistinct | internal/auth/unsubscribe.go:28-31 | different ids never share a token |
| UnsubscribeToken.AcceptedExactly | internal/auth/unsubscribe.go:34-49 | a token is accepted exactly when it is a dot-free spelling of the id, a dot, and the MAC of that spelling |

## Left out

- HTTP routing, JSON, the browser application, the email and log senders, the SQL driver, migrations and the configuration parser: input and output around the engine.
- Account, password and auth-token flows, the Ticketmaster retry loop, notification listing and the wording of the milestones: they would add easier members.
- Real clocks, time zones and timestamp parsing: a time is a number of nanoseconds, a stamp carries its zone offset, less than a day as in section 5.6 of RFC 3339, clock readings are parameters, and midnight is any function that lies ahead and stays put until reached.
- Floating point and duration rounding inside golang.org/x/time/rate: the library itself is not part of this model.
- HMAC and base64: the MAC is any function of secret and text.
- Character encodings: a string is a sequence of characters, and the HTML reader decodes only the five references that escaping writes.
- Columns that nothing modelled reads (names, addresses, the channel of a notification); a consent or notified timestamp is kept only as set or not set.
- The unsubscribe link in the alert: the notifier records watch, user and kind.
- A call that takes effect and then reports an error: here a failed call changes nothing. A claim inserted by such a call would be a claim that no job won, which ClaimLedger.EveryWinIsAccountedFor says nothing about.
- History rows when two polls of one event overlap: the history theorems are about polls in sequence, while the claim and flip theorems cover every interleaving.
- DailyQuota.ClassesDoNotInterfere: excludes a midnight between the two clock readings of an operation of the class that may find a reset due, because the statement is false there (IndependentExactlyWhenSteady).
- DailyQuota.CountersAreExact: excludes the same operations, because such a call is granted on one day and counted on the next (CountersRightExactlyWhen).
- DailyQuota.Limiter.Acquire: the outcome of waiting for the per-second bucket is an input.
- SerialPolls.HistoryLosesNothing: excludes overwritten availabilities and polls that stop between row and update, because the statement is false there (HistoryCompleteExactlyWhen).
- IpLimiter.RateBound: assumes burst at most rate times ttl, because it is false otherwise (RateBoundExactlyWhen).
- EventScheduler.Scheduler.Tick: the endless ticker loop around it is covered by Pipeline, where a tick may happen at any moment.
- WatchService.Create: the view returned to the client is reduced to the watch id.
