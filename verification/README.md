# Live-streaming backend: verified model

This project models the parts of a live-streaming backend that hold money, sessions and identities together, and
proves what they promise over every run. `dafny verify dfyconfig.toml` checks it. Wherever Dafny would try induction on
its own it is switched off, so each proof is what its body says.

**Advertisements.** Owners, administrators and the renewal job drive each advertisement through review, paid monthly
cycles, boosts, cancellation, pauses and renewals, over wallets, a ledger and billing events. `AdModel` says what each
request does to the tables, `AdServices` has the services step by step and proves that they do just that, and
`AdLifecycle` shows that every request moves each advertisement by one move of a small machine. On that machine rest
the invariants (`AdInvariants`), the counting and dating of cycles (`AdCycles`), the boost windows (`AdBoosts`), the
money (`AdMoney`) and the progress of the renewal job (`AdRenewals`). Said once more in plain statuses, dates and
numbers, apart from the definitions above: when each request is accepted and how the statuses move (`AdDecisions`), what
a month and a boost cost (`AdPrices`), and what a row says of its advertisement's past (`AdHistory`). `Calendar` is the
UTC calendar that the billing dates are computed in, month by month, `CivilCalendar` the closed formula it agrees with,
and `MapSums` adds up the rows of a table.

**Payouts.** An administrator's action reads the payout first and commits later. `Payouts` runs reads, commits and new
requests in any interleaving, `PayoutHistory` follows the statuses, and `PayoutService` has the two halves of each
action.

**Permissions.** `PermissionCache` runs any number of cached service instances over one table, next to the uncached
lookup.

**Audit log.** `AuditCsv` prints the export and reads it back; `AuditMask` hides staff identities in JSON.

**Sessions.** `AuthModel` says what logins, refreshes, logouts and password resets do to the token rows, `AuthServices`
does it step by step, and `AuthSessions` proves what every run of them keeps. `AuthAnswers` says in the fields of the
rows what each request answers, and `AuthPasswords` which password logs in after a reset.

**Telemetry.** `RoutePaths` is the path normaliser that three files carry a copy of, and `RouteMetrics` the recording of
requests, the route inventory and the merge of both.

**Smaller parts.** `BadgeSlug` searches a free slug, `RateLimit` is the fixed-window limiter, `TopGifters` the summary of
a battle's contributions. `Strings`, `StableSort` and `Wrappers` are shared.

## What was found

- A retry of payment never looks at the advertisement's status. It lifts an administrator's pause, and charges again for
  time already paid exactly when a paid cycle is still running (`AdCycles.RetryIgnoresStatus`,
  `AdCycles.ReachableCyclesDisjoint`, `AdCycles.RetryOverlapExample`).
- Approving a payout and marking it as processing commit without reading the status again, so a commit that comes after
  another administrator settled the payout leaves a status that is not true of its earnings, exactly then; the ledger
  balances all the same (`Payouts.CommitKeepsStatusTrueUnlessLate`, `Payouts.LateApprovalExample`, `Payouts.RunBalances`).
- The 30 seconds of the permission cache hold exactly as long as no update puts a set into a cache that another update
  has already overtaken in the table; otherwise the time between its write and its cache entry is added
  (`PermissionCache.RecentExactlyWhenTimely`, `PermissionCache.OvertakenExample`, `PermissionCache.ServedIsRecent`).
- Masking an object drops an own entry named `__proto__`, and nothing else (`AuditMask.KeepsEveryPlaceExactly`).
- A refresh while the user is banned revokes only the presented token: the code that would revoke all of them stands
  behind a check that has already refused (`AuthSessions.BannedRefreshKeepsOtherSessions`).
- Normalising a path twice can differ from once, exactly when white space stands before its last slash
  (`RoutePaths.SanitizeAgain`, `RoutePaths.SanitizeAgainExample`). A request to a handler whose own path is blank is
  recorded under the raw path, not under the listed pattern (`RoutePaths.ListedIsRecorded`,
  `RoutePaths.BlankHandlerExample`). The interceptor logs another pattern than the recorded one for a handler with a list
  of paths, for a request without a path of its own below a base, and for some at the root (`RoutePaths.LoggedIsRecorded`,
  `RoutePaths.ListOfPathsExample`).
- An administrator's pause lifted before the cycle ends leaves no trace, except on the last cycle bought, which gains a
  billing date and yet is not billed again (`AdDecisions.PauseIsUndone`, `AdCycles.ActivationBuysItsCycles`).
- A slug cut at 140 characters can end in a dash and is then not stable; the word "badge" for an empty stem is never used
  (`BadgeSlug.SlugifyAgain`, `BadgeSlug.UnstableExample`, `BadgeSlug.CandidateIsSlug`).

## Model

| member | source | states |
|---|---|---|
| Calendar.DecodeEncode | src/modules/advertisements/advertisements.service.ts:200-209 | splitting a date into year, month and day and setting the same fields again gives the same date, for every date |
| Calendar.EncodeDecode | src/modules/advertisements/advertisements.service.ts:200-209 | the fields of a date built from a month, a day and a time of day are that month, day and time |
| Calendar.DayZeroIsLastDay | src/modules/advertisements/advertisements.service.ts:204-204 | the day the code reads as the last of a month is as many as the month has days, which CivilCalendar.LengthsOfMonths gives in numbers |
| Calendar.AddMonthsFields | src/modules/advertisements/advertisements.service.ts:200-209 | in decoded fields: adding months moves the month by exactly that many, lands on the anchor day or the last day of a shorter month, and keeps the time of day; CivilCalendar.AddMonthsLands says it in closed form |
| Calendar.AddMonthsComposes | src/modules/advertisements/advertisements.service.ts:200-209 | no drift: m months and then n months with one anchor land where m + n months land |
| Calendar.AddMonthsAdvances | src/modules/advertisements/advertisements.service.ts:200-209 | at least one month added is a strictly later moment |
| Calendar.CycleLength | src/modules/advertisements/advertisements.service.ts:200-209 | a one-month cycle that starts on its anchored day ends on one, and lasts 28 to 31 whole days |
| CivilCalendar.LengthsOfMonths | src/modules/advertisements/advertisements.service.ts:203-205 | the lengths of the twelve months of every year in numbers, February by the 400-year leap rule |
| CivilCalendar.MonthStartIsCivil | src/modules/advertisements/advertisements.service.ts:203-207 | the first day of every month, before and after 1970, is where a closed formula for the Gregorian calendar puts it |
| CivilCalendar.DateUtcIsCivil | src/modules/advertisements/advertisements.service.ts:204-204 | Date.UTC of any year, month and date is 86400000 times the closed day count, months and dates out of range included |
| CivilCalendar.FourHundredYears | src/modules/advertisements/advertisements.service.ts:203-207 | 4800 months are 146097 days, from any month on |
| CivilCalendar.FieldsAreTheDate | src/modules/advertisements/advertisements.service.ts:201-208 | year, month, date and time of day read from an instant are the one real date whose closed day count gives that instant |
| CivilCalendar.AddMonthsLands | src/modules/advertisements/advertisements.service.ts:200-209 | months added to a date land in the month that many later, on the anchor day or on that month's last day, at the same time of day, all in the closed day count |
| CivilCalendar.JanuaryExample | src/modules/advertisements/advertisements.service.ts:200-209 | a cycle begun on 31 January 2026 has the anchor 31 and ends on 28 February |
| AdModel.CalculatePromoPrice | src/modules/advertisements/advertisements.service.ts:322-368 | discount plus final price is the original price in both currencies; a percentage discount leaves the rounded-up share, a fixed one the difference floored at zero, a free promotion nothing, and outside the promotion's dates nothing is taken off |
| AdModel.RequestedCycles | src/modules/advertisements/advertisements.service.ts:191-198 | no fixed number is bought exactly when none of at least 1 is asked for; otherwise the number asked for, or 120 when that is more |
| AdServices.AdvertisementsService.EnsureWallet | src/modules/advertisements/advertisements.service.ts:1084-1092 | finds the wallet or creates an empty one, and touches no other table |
| AdServices.AdvertisementsService.DebitWallet | src/modules/advertisements/advertisements.service.ts:1136-1158 | takes the amount in one currency and writes the one ledger row for it |
| AdServices.AdvertisementsService.ChargeAdvertisement | src/modules/advertisements/advertisements.service.ts:1032-1177 | the charge step by step leaves the priced event, and wallet and ledger only when it is paid; what it costs in the numbers of the settings is AdPrices.EveryMonthIsCharged |
| AdServices.AdvertisementsService.ActivateApprovedAdvertisement | src/modules/advertisements/advertisements.service.ts:1179-1228 | charges and, when paid, opens the first cycle with its anchor, billing date and remaining cycles; a failed charge leaves the FAILED event and PAYMENT_FAILED behind inside the transaction |
| AdServices.AdvertisementsService.CreateAdvertisement | src/modules/advertisements/advertisements.service.ts:855-916 | a new advertisement waits for review with revision 1, or the request is refused and nothing changes |
| AdServices.AdvertisementsService.UpdateAdvertisement | src/modules/advertisements/advertisements.service.ts:918-1030 | an edit adds the next revision unless one is pending, and keeps the status of an advertisement that has approved content |
| AdServices.AdvertisementsService.BoostAdvertisement | src/modules/advertisements/advertisements.service.ts:1231-1362 | a boost is paid, recorded and appended to the running window, or rolled back as a whole |
| AdServices.AdvertisementsService.CancelAtCycleEnd | src/modules/advertisements/advertisements.service.ts:1374-1411 | a live advertisement is marked for its end, one whose payment failed becomes inactive, and every other status is refused |
| AdServices.AdvertisementsService.Republish | src/modules/advertisements/advertisements.service.ts:1413-1459 | an ended advertisement is charged and activated, and a failed charge is rolled back with its event |
| AdServices.AdvertisementsService.RetryPayment | src/modules/advertisements/advertisements.service.ts:1461-1488 | the same without any look at the status |
| AdServices.AdvertisementsService.FindDue | src/modules/advertisements/advertisements.service.ts:1556-1567 | the query selects different due rows, all of them or as many as the limit, by billing date with rows without one last, and leaves out none that comes earlier; which rows are due is AdRenewals.SelectsWhatItActsOn |
| AdServices.AdvertisementsService.RenewOne | src/modules/advertisements/advertisements.service.ts:1574-1665 | one renewal transaction ends, expires, renews or fails the advertisement, or leaves it when it is no longer due |
| AdServices.AdvertisementsService.ProcessDueRenewals | src/modules/advertisements/advertisements.service.ts:1554-1678 | the loop renews the selected rows one after another in the order of the query, and its counters are the numbers of rows renewed, ended and failed; what repeated runs leave is AdRenewals.CallsDrainTheQueue |
| AdServices.AdminAdvertisementsService.ApproveRevision | src/modules/admin-advertisements/admin-advertisements.service.ts:673-783 | approval supersedes the approved revision before it; the first approval charges, and a failed first charge is kept, not rolled back |
| AdServices.AdminAdvertisementsService.DenyRevision | src/modules/admin-advertisements/admin-advertisements.service.ts:785-877 | denial refuses the pending revision, and the advertisement only if it has no approved content |
| AdServices.AdminAdvertisementsService.PauseAdvertisement | src/modules/admin-advertisements/admin-advertisements.service.ts:879-949 | a pause takes away the billing date, whatever the status |
| AdServices.AdminAdvertisementsService.ResumeAdvertisement | src/modules/admin-advertisements/admin-advertisements.service.ts:951-1016 | a resume restores the billing date only inside the paid cycle of an advertisement that is not cancelled, else the advertisement is inactive |
| AdServices.AdvertisementRenewalService.RunOnce | src/modules/advertisements/advertisement-renewal.service.ts:41-63 | a run started during another does nothing; otherwise it is one run of the job, and the flag is down again at the end |
| AdLifecycle.RequestFollows | src/modules/advertisements/advertisements.service.ts:855-1678 | refinement: every request, on any tables, moves each advertisement by one move of a machine with ten moves |
| AdLifecycle.RequestBills | src/modules/advertisements/advertisements.service.ts:1094-1174 | the billing events tell the moves: exactly one successful monthly event with the right dates for each paid cycle, and a RENEWAL event exactly when the job charges |
| AdLifecycle.RequestCounts | src/modules/advertisements/advertisements.service.ts:1094-1174 | the number of successful monthly charges, and of renewal attempts, moves by exactly what the advertisement's move says |
| AdInvariants.MoveKeepsRow | src/modules/advertisements/advertisements.service.ts:1179-1678 | each move keeps the row's invariant: a billing date means live and is the cycle's end, live means approved content and a paid cycle, and an ended status means no paid cycle is running |
| AdInvariants.RevisionsStayOk | src/modules/admin-advertisements/admin-advertisements.service.ts:680-751 | each request keeps the current revision the only approved one, at most one pending, and the versions 1 to n without gap or repetition |
| AdInvariants.StepKeepsConsistent | src/modules/admin-advertisements/admin-advertisements.service.ts:680-981 | every request keeps every advertisement's row and revisions consistent |
| AdInvariants.RunKeepsConsistent | src/modules/advertisements/advertisements.service.ts:855-1678 | so does every run with a clock that does not go back, and the empty tables are consistent |
| AdInvariants.EmptyIsConsistent | src/modules/advertisements/advertisements.service.ts:224-238 | the tables of a fresh installation satisfy the invariant |
| AdInvariants.StepKeepsEventsKnown | src/modules/advertisements/advertisements.service.ts:1094-1174 | billing events are only ever written for existing advertisements |
| AdCycles.ActivationBuysItsCycles | src/modules/advertisements/advertisements.service.ts:1210-1227 | over every run from one activation to the next: charges made plus remaining cycles are the cycles asked for, so k cycles are charged at most k times, and the n-th paid cycle ends exactly n months after the activation |
| AdCycles.MoveStaysAccounted | src/modules/advertisements/advertisements.service.ts:1598-1651 | each move that is no activation keeps that account, an administrator's resume with no cycles left included |
| AdCycles.EveryCycleLasts | src/modules/advertisements/advertisements.service.ts:1623-1647 | each of those cycles begins where the one before ends and lasts 28 to 31 whole days |
| AdCycles.CyclesEndOnDates | src/modules/advertisements/advertisements.service.ts:1623-1647 | activated on a date, after n charges the cycle ends n months later on that day of the month or on the month's last, in the closed day count |
| AdCycles.CancelIsFinal | src/modules/advertisements/advertisements.service.ts:1374-1405 | after a successful cancellation no renewal is charged or tried in any run, through pauses, resumes, edits, approvals, boosts and renewal jobs, until the next republish or retry |
| AdCycles.CyclesStayDisjointUnlessRetried | src/modules/advertisements/advertisements.service.ts:1461-1488 | a request keeps the paid cycles apart if and only if it is not a paid retry while a paid cycle is running |
| AdCycles.RunKeepsCyclesDisjoint | src/modules/advertisements/advertisements.service.ts:1554-1678 | from any state with disjoint paid cycles, every run without such a retry keeps them disjoint |
| AdCycles.DisjointExactlyWithoutRetry | src/modules/advertisements/advertisements.service.ts:1461-1488 | whether the advertisement exists from the start or is created during the run, its paid cycles are disjoint at the end if and only if payment was never retried while a paid cycle was running |
| AdCycles.ReachableCyclesDisjoint | src/modules/advertisements/advertisements.service.ts:1461-1488 | in every run from empty tables time is paid for twice if and only if payment was retried while a paid cycle was running |
| AdCycles.RetryIgnoresStatus | src/modules/advertisements/advertisements.service.ts:1461-1488 | a retry of payment has the same outcome under every status, an administrator's pause included, and leaves the advertisement live |
| AdCycles.RetryOverlapExample | src/modules/advertisements/advertisements.service.ts:1461-1488 | a run in which an advertisement is approved and at once retried, and is charged twice for the same time |
| AdBoosts.StepKeepsBoostsDisjoint | src/modules/advertisements/advertisements.service.ts:1253-1361 | boost windows sold for one advertisement stay disjoint and full length, and its boosted-until date never goes back |
| AdBoosts.RunKeepsBoostsDisjoint | src/modules/advertisements/advertisements.service.ts:1253-1361 | the same over every run |
| AdBoosts.StepKeepsAllBoostsDisjoint | src/modules/advertisements/advertisements.service.ts:1253-1361 | the same for every advertisement at once, one just created included |
| AdBoosts.ReachableBoostsDisjoint | src/modules/advertisements/advertisements.service.ts:1253-1361 | in every run from empty tables the boost windows of every advertisement are disjoint and full length |
| AdMoney.RunBalances | src/modules/advertisements/advertisements.service.ts:1084-1174 | over every run of every request each wallet moves by the sum of its ledger rows in both currencies, and is never overdrawn |
| AdMoney.StepKeepsPaymentsMatched | src/modules/advertisements/advertisements.service.ts:1094-1174 | each successful event with a non-zero charge points to one debit of that amount by its owner, no two share one, every debit has its event, and each monthly price splits into discount and final price |
| AdMoney.RunKeepsPaymentsMatched | src/modules/advertisements/advertisements.service.ts:1094-1174 | the same over every run |
| AdMoney.ReachablePaymentsMatch | src/modules/advertisements/advertisements.service.ts:1084-1174 | in every run from empty tables payments match their events, and each wallet is the sum of its ledger rows and not overdrawn |
| AdMoney.ErrorsChangeNothing | src/modules/advertisements/advertisements.service.ts:1231-1488 | a request that reports an error has changed no table |
| AdPrices.EveryMonthIsCharged | src/modules/advertisements/advertisements.service.ts:1045-1174 | each monthly charge, paid or not, costs the advertisement's own price, less the promotion of the settings when the month begins inside it, in coins at the settings' rate; it succeeds if and only if it is free or covered, and takes exactly that from the owner's wallet |
| AdPrices.EveryBoostIsCharged | src/modules/advertisements/advertisements.service.ts:1253-1361 | a boost costs the settings' price for the settings' hours, 100 and 24 where they name none, in the currency chosen or the advertisement's, from the owner's wallet, and runs from now or from the end of the running one |
| AdHistory.CreatedKeepsItsTerms | src/modules/advertisements/advertisements.service.ts:868-881 | from its creation on, through any run and any change of settings: every event is charged to the creator, every month at the list price of the day of creation, the currency and the cycles asked for are those of the last accepted submission, and the row shows the last paid cycle and boost |
| AdHistory.CreatedPaysItsPrice | src/modules/advertisements/advertisements.service.ts:1046-1047 | each of those charges takes from the creator's wallet the list price of the day of creation less the discount then in force, or nothing when it cannot be paid |
| AdHistory.StepShowsLastPayments | src/modules/advertisements/advertisements.service.ts:1210-1227 | every request keeps the row's cycle equal to that of the last successful monthly event, and its boost end to that of the last boost event |
| AdHistory.StepSetsMoments | src/modules/advertisements/advertisements.service.ts:1210-1227 | the row holds the moment of the last successful monthly charge, which leaves it live and with a billing date at the cycle's end unless no cycles are left |
| AdDecisions.AcceptedExactly | src/modules/advertisements/advertisements.service.ts:855-1488 | each of the owners' and administrators' requests is accepted if and only if its guards hold, and a refused one changes nothing |
| AdDecisions.RefusedFor | src/modules/advertisements/advertisements.service.ts:917-1470 | which refusals are not found, forbidden or a taken key; another user's advertisement is refused as a missing one |
| AdDecisions.OnlyTheOwnerActs | src/modules/advertisements/advertisements.service.ts:919-931 | over any run of requests by other users neither an advertisement nor its owner's wallet changes |
| AdDecisions.StatusesMoveAlong | src/modules/advertisements/advertisements.service.ts:1179-1665 | the diagram of the eight statuses: an advertisement is in a status after a request if and only if the request moved it there by the one cause for that status, or it was there and nothing moved it |
| AdDecisions.MarkMovesAlong | src/modules/advertisements/advertisements.service.ts:1374-1411 | the mark of a cancellation is set by cancelling a live advertisement and taken off by an activation, the end of the last cycle or a cancellation after a failed payment, by nothing else |
| AdDecisions.PauseIsUndone | src/modules/admin-advertisements/admin-advertisements.service.ts:901-981 | a pause of a live advertisement lifted before its cycle ends leaves no trace, if and only if there was a billing date or a cancellation; else the last cycle gains a billing date |
| AdDecisions.RevisionsAreDecided | src/modules/admin-advertisements/admin-advertisements.service.ts:693-844 | a revision changes status only by its own approval or denial, or from approved to superseded by the approval of a later one of the same advertisement |
| AdDecisions.SubmissionWaits | src/modules/advertisements/advertisements.service.ts:883-1007 | a revision appears only by an accepted creation or edit, waits for review, and is numbered behind those before it |
| AdDecisions.CreationWaits | src/modules/advertisements/advertisements.service.ts:871-906 | an advertisement appears only by an accepted creation, waits for review, and is not billed |
| AdDecisions.DecisionsAreFinal | src/modules/admin-advertisements/admin-advertisements.service.ts:693-844 | over every run a decided revision never waits again, and a refused or superseded one stays so |
| AdDecisions.LatestIsNamed | src/modules/advertisements/advertisements.service.ts:1008-1016 | the row names the revision last submitted or approved |
| AdRenewals.DueMakesProgress | src/modules/advertisements/advertisements.service.ts:1574-1665 | a due advertisement is renewed to a strictly later cycle end, or becomes EXPIRED, INACTIVE when it was cancelled, or PAYMENT_FAILED without a billing date, and a measure of what is left to bill drops |
| AdRenewals.SelectsWhatItActsOn | src/modules/advertisements/advertisements.service.ts:1556-1621 | the query selects an advertisement if and only if its renewal transaction then changes it |
| AdRenewals.CallProgresses | src/modules/advertisements/advertisements.service.ts:1554-1678 | one run of the job lowers the measure by at least the number of rows it selects |
| AdRenewals.CallsDrainTheQueue | src/modules/advertisements/advertisements.service.ts:1554-1678 | at a fixed moment, with a limit of at least one and any selection order, repeated runs end with no cancelled advertisement past its cycle, no live one past its billing date, and no live one past its last cycle |
| Payouts.StepMovesEarning | src/modules/admin-payouts/admin-payouts.service.ts:714-917 | in any interleaving an earning leaves LOCKED by one door only, the commit of an action on its own payout, keeps its owner and amount, and a paid one stays paid |
| Payouts.PaidStaysPaid | src/modules/admin-payouts/admin-payouts.service.ts:714-778 | over every run a paid earning is never released or locked again |
| Payouts.StepKeepsConsistent | src/modules/admin-payouts/admin-payouts.service.ts:582-1062 | every read, commit and new request keeps what pending reads rely on |
| Payouts.CommitBalances | src/modules/admin-payouts/admin-payouts.service.ts:859-917 | one commit adds to the ledger exactly what it makes available again, for every user |
| Payouts.RunBalances | src/modules/admin-payouts/admin-payouts.service.ts:859-1062 | over every interleaving: available plus locked plus paid diamonds of a user never change, and the ledger moves by exactly what becomes available less what is locked |
| Payouts.CommitExplained | src/modules/admin-payouts/admin-payouts.service.ts:859-917 | one commit writes PAYOUT_REVERSAL rows for exactly the diamonds it moves from LOCKED to AVAILABLE, and no debits |
| Payouts.RunReverses | src/modules/admin-payouts/admin-payouts.service.ts:859-1062 | over every interleaving the PAYOUT_REVERSAL rows of a user add up to the diamonds moved from LOCKED to AVAILABLE, and the PAYOUT_DEBIT rows to those moved from AVAILABLE to LOCKED |
| Payouts.RequestBalances | src/modules/payouts/payouts.service.ts:380-420 | a payout request locks earnings and debits the same amount |
| Payouts.CommitKeepsStatusTrueUnlessLate | src/modules/admin-payouts/admin-payouts.service.ts:714-778 | a commit leaves the payout's status true of its earnings if and only if it is not late: a processing mark must still find the payout open, an approval open or paid |
| Payouts.RunKeepsTruthful | src/modules/admin-payouts/admin-payouts.service.ts:582-1062 | without late commits every status tells the truth in any interleaving |
| Payouts.StartIsTruthful | src/modules/payouts/payouts.service.ts:380-420 | before the first payout, with any earnings not yet locked or paid, all of that holds |
| Payouts.LateApprovalExample | src/modules/admin-payouts/admin-payouts.service.ts:677-778 | a rejection committed between the read and the commit of an approval ends with a paid payout whose earnings are available again |
| PayoutHistory.RequestTakes | src/modules/payouts/payouts.service.ts:330-420 | a request is carried out if and only if the chosen earnings are the user's own, available, in no payout and worth at least 5000 diamonds; it locks exactly those for a payout of their total, pending for a manual method and processing else, or changes nothing |
| PayoutHistory.BeginReads | src/modules/admin-payouts/admin-payouts.service.ts:590-857 | an action begins if and only if the payout is pending or processing, and sees exactly the earnings locked for it |
| PayoutHistory.CommitRecords | src/modules/admin-payouts/admin-payouts.service.ts:614-1042 | a commit records PROCESSING, PAID or the requested status on its own payout and leaves every other row, or changes nothing; only a release fails, and only when an earning it read is no longer locked for the payout |
| PayoutHistory.CommitSettles | src/modules/admin-payouts/admin-payouts.service.ts:714-917 | an approval pays every earning locked for the payout, a release frees every earning its read saw, and no other earning changes |
| PayoutHistory.StatusIsTheLastGiven | src/modules/admin-payouts/admin-payouts.service.ts:582-1062 | over every interleaving a payout's status is the one its request gave it, or the one of the last commit that succeeded on it |
| PayoutHistory.PayoutsStayLarge | src/modules/payouts/payouts.service.ts:340-342 | so in every run no payout is of fewer than 5000 diamonds |
| PayoutService.AdminPayoutsService.BeginUnlessSettled | src/modules/admin-payouts/admin-payouts.service.ts:590-610 | the read and the guard of processing and approval |
| PayoutService.AdminPayoutsService.BeginIfOpen | src/modules/admin-payouts/admin-payouts.service.ts:841-857 | the read and the guard of rejection and failure |
| PayoutService.AdminPayoutsService.FinishMarkProcessing | src/modules/admin-payouts/admin-payouts.service.ts:614-640 | the commit of processing on whatever the tables hold by then |
| PayoutService.AdminPayoutsService.FinishApprove | src/modules/admin-payouts/admin-payouts.service.ts:714-778 | the commit of an approval: the status, and every earning still locked for the payout |
| PayoutService.AdminPayoutsService.SumLocked | src/modules/admin-payouts/admin-payouts.service.ts:859-868 | the loop adds up the diamonds of the earnings read |
| PayoutService.AdminPayoutsService.FinishRelease | src/modules/admin-payouts/admin-payouts.service.ts:871-917 | the commit of a release: all the earnings read are still locked and become available with one ledger row, or nothing changes; the status it records is PayoutHistory.CommitRecords |
| PermissionCache.WrittenMeans | src/modules/admin-users/admin-role-permissions.service.ts:251-287 | after an update or a reset the table means exactly the reported set for that role and what it meant before for the others, a role with everything disabled included |
| PermissionCache.StepStaysFresh | src/modules/admin-users/admin-role-permissions.service.ts:38-74 | each step of any instance keeps every cache entry recent |
| PermissionCache.RunStaysFresh | src/modules/admin-users/admin-role-permissions.service.ts:119-157 | so does every interleaving of requests to any number of instances |
| PermissionCache.ServedIsRecent | src/modules/admin-users/admin-role-permissions.service.ts:119-157 | whatever an instance serves is what the uncached lookup gave at some moment within the last 30000 milliseconds, plus the time an update takes from its write to its cache entry |
| PermissionCache.StartIsFresh | src/modules/admin-users/admin-role-permissions.service.ts:38-43 | the empty caches of a fresh start are recent |
| PermissionCache.RememberIsRecentExactly | src/modules/admin-users/admin-role-permissions.service.ts:251-287 | as long as the entry an update puts into the cache lives, its instance serves only what the table meant within the last 30 seconds, if and only if the update was not overtaken |
| PermissionCache.RecentExactlyWhenTimely | src/modules/admin-users/admin-role-permissions.service.ts:119-157 | through any run over any number of instances, everything served is what the table meant within the last 30 seconds, if and only if no update puts an overtaken set into a cache |
| PermissionCache.StartIsSound | src/modules/admin-users/admin-role-permissions.service.ts:38-43 | the start of that theorem: the empty caches of a fresh start |
| PermissionCache.UninterruptedIsTimely | src/modules/admin-users/admin-role-permissions.service.ts:251-287 | an update during which nobody else writes the role is never overtaken, however long it takes |
| PermissionCache.OvertakenExample | src/modules/admin-users/admin-role-permissions.service.ts:251-287 | a run with two updates in which an instance serves a set that the table last meant 38.999 seconds before |
| PermissionCache.EntryIsServed | src/modules/admin-users/admin-role-permissions.service.ts:45-58 | through any run an entry is served until it expires, unless the same instance drops it or replaces it by another update's |
| PermissionCache.UpdaterServesUntilExpiry | src/modules/admin-users/admin-role-permissions.service.ts:251-328 | the instance that ran an update or reset serves the new set at once and through any run until the entry expires or the same instance changes the role again |
| PermissionCache.LookupIsServedUntilExpiry | src/modules/admin-users/admin-role-permissions.service.ts:119-157 | an instance that looked a role up serves what it found for the next 30 seconds, and one that answered from its cache until that entry expires, whatever is written meanwhile |
| PermissionCache.WritesExactly | src/modules/admin-users/admin-role-permissions.service.ts:225-250 | an update writes if and only if it names registered permissions only, and touches no cache before it is remembered |
| PermissionCache.AdminRolePermissionsService.GetCachedEffectivePermissions | src/modules/admin-users/admin-role-permissions.service.ts:45-58 | answers from an entry that has not expired, and forgets one that has |
| PermissionCache.AdminRolePermissionsService.GetEffectivePermissions | src/modules/admin-users/admin-role-permissions.service.ts:119-157 | serves the cached set or looks it up and keeps it |
| PermissionCache.AdminRolePermissionsService.ChangeRolePermissions | src/modules/admin-users/admin-role-permissions.service.ts:216-354 | an update or reset, run alone, leaves the written table and the new set in the cache, or is refused and changes nothing |
| PermissionCache.AdminAuditService.GetEffectivePermissions | src/modules/admin-audit/admin-audit.service.ts:106-127 | the uncached lookup filters the enabled rows of the role |
| AuditCsv.ReadEscaped | src/modules/admin-audit/admin-audit.service.ts:881-881 | reading a quoted field gives back the text whose quotes were doubled |
| AuditCsv.ReadRow | src/modules/admin-audit/admin-audit.service.ts:879-882 | a printed row, whatever its cells hold, reads back as its cells |
| AuditCsv.ReadGrid | src/modules/admin-audit/admin-audit.service.ts:877-884 | a header of plain cells and any rows read back as the same grid |
| AuditCsv.ExportReadsBack | src/modules/admin-audit/admin-audit.service.ts:826-885 | the exported text parses, by section 2 of RFC 4180 with line feeds, to the header and the items' rows, each as wide as the header |
| AuditCsv.FieldsStandUnderTheirTitles | src/modules/admin-audit/admin-audit.service.ts:827-875 | each of the 22 titles of the header, by name, and under it that field of the item, blank where it has none |
| AuditCsv.ExportShowsEveryField | src/modules/admin-audit/admin-audit.service.ts:826-885 | whoever reads the exported text finds each field of each item under its title |
| AuditCsv.ExportLosesNothing | src/modules/admin-audit/admin-audit.service.ts:826-885 | two exports are the same text only if their cells are the same |
| AuditMask.MaskStaffAdminIds | src/modules/admin-audit/admin-audit.service.ts:608-636 | the masker, with its loop over the entries, computes the mask, and with the right to see identities returns the value itself |
| AuditMask.StaffKeysEndSo | src/modules/admin-audit/admin-audit.service.ts:629-631 | the staff keys are those whose last eleven characters spell adminuserid, each letter small or capital |
| AuditMask.MaskAt | src/modules/admin-audit/admin-audit.service.ts:620-635 | for every path: nothing below a staff key, null at a staff key, and elsewhere what stood there; only an entry named __proto__ is lost |
| AuditMask.MaskedHasNoStaffIds | src/modules/admin-audit/admin-audit.service.ts:629-632 | no key ending in AdminUserId, in any mix of cases and at any depth, holds anything but null |
| AuditMask.UnchangedExactly | src/modules/admin-audit/admin-audit.service.ts:608-636 | a value is left as it is if and only if its staff keys hold null already and no visible entry is named __proto__ |
| AuditMask.MaskIsIdempotent | src/modules/admin-audit/admin-audit.service.ts:608-636 | masking twice is masking once |
| AuditMask.KeepsEveryPlaceExactly | src/modules/admin-audit/admin-audit.service.ts:626-635 | no key, leaf or array element outside the hidden parts is lost, if and only if no visible object has an entry named __proto__ |
| AuditMask.PrototypeEntryIsLost | src/modules/admin-audit/admin-audit.service.ts:626-635 | an object with such an entry, which comes out without it |
| AuthServices.AuthService.IssueTokens | src/modules/auth/auth.service.ts:400-428 | stores the digest and expiry of a new refresh token, unless its id is taken |
| AuthServices.AuthService.FinalizeLogin | src/modules/auth/auth.service.ts:817-837 | issues tokens only past the ban, the e-mail and the gate |
| AuthServices.AuthService.Login | src/modules/auth/auth.service.ts:682-713 | checks the credentials first, and asks for the second factor before issuing anything |
| AuthServices.AuthService.Login2FA | src/modules/auth/auth.service.ts:715-761 | the loop over the backup codes finds the first match, removes it and completes the login |
| AuthServices.AuthService.Refresh | src/modules/auth/auth.service.ts:839-893 | revokes the presented token before anything else can fail, then issues its successor |
| AuthServices.AuthService.Logout | src/modules/auth/auth.service.ts:895-927 | revokes the presented token once, and is satisfied with one already gone |
| AuthServices.AuthService.RevokeAllRefreshTokensForUser | src/modules/auth/auth.service.ts:805-815 | revokes the tokens of that user that are not revoked yet |
| AuthServices.AuthService.RequestPasswordReset | src/modules/auth/auth.service.ts:234-262 | consumes the user's open reset tokens and adds the new one, if its id and digest are free |
| AuthServices.AuthService.ConfirmPasswordReset | src/modules/auth/auth.service.ts:597-680 | consumes the token and the user's others, revokes the user's sessions and sets the password, or refuses and changes nothing; which password then logs in is AuthPasswords.ResetReplacesThePassword |
| AuthModel.FirstMatch | src/modules/auth/auth.service.ts:740-743 | the first stored code that matches |
| AuthModel.Without | src/modules/auth/auth.service.ts:747-749 | removes every copy of one code and nothing else |
| AuthSessions.PerformMoves | src/modules/auth/auth.service.ts:400-927 | no request brings a revoked token back or removes one; at most one new token appears, and a refresh passes on the user of the token it revokes |
| AuthSessions.AdvanceKeepsOnePerChain | src/modules/auth/auth.service.ts:839-893 | the chain that a refresh continues has no other token in force |
| AuthSessions.RunKeepsSound | src/modules/auth/auth.service.ts:400-927 | over every run each login starts a chain with at most one token in force, and no token is redeemed twice |
| AuthSessions.SessionsAreAtMostLogins | src/modules/auth/auth.service.ts:400-428 | a user never has more tokens in force than completed logins |
| AuthSessions.RevokedIsOver | src/modules/auth/auth.service.ts:857-859 | a revoked token is refused after any further requests, and trying it changes nothing |
| AuthSessions.ResetEndsSessions | src/modules/auth/auth.service.ts:643-675 | after a password reset no token its user had before is ever accepted again, in any run |
| AuthSessions.StepKeepsResetsSound | src/modules/auth/auth.service.ts:234-262 | a reset token is used at most once, and a user has at most one that is open |
| AuthSessions.IssuedIsRedeemed | src/modules/auth/auth.service.ts:400-428 | a token just issued is accepted exactly until its lifetime in whole seconds is over |
| AuthSessions.BannedRefreshKeepsOtherSessions | src/modules/auth/auth.service.ts:873-880 | a refresh during a ban revokes the presented token only; the branch that would revoke the others is not reached |
| AuthSessions.CodesAreSpentOnce | src/modules/auth/auth.service.ts:737-758 | while no new codes are set, each stored backup code admits at most one login, so their number bounds those logins |
| AuthAnswers.TokensExactlyForTheEntitled | src/modules/auth/auth.service.ts:682-893 | a user is given tokens if and only if not banned, verified and let in by the gate, and having shown the password where no second factor is set, a valid second factor where one is, or a token in force, unless the new row's id is taken |
| AuthAnswers.LoginAnswers | src/modules/auth/auth.service.ts:682-713 | the answer to a login in every case: unauthorized without the password, forbidden during a ban or before verification, then the second factor, then the gate |
| AuthAnswers.SecondFactorAnswers | src/modules/auth/auth.service.ts:715-761 | the answer to the second step in every case: a text with a dash must match a stored code, any other be six characters and valid |
| AuthAnswers.RefreshAnswers | src/modules/auth/auth.service.ts:839-893 | the answer to a refresh in every case, and no change when the token is not in force |
| AuthAnswers.RefreshRevokesIt | src/modules/auth/auth.service.ts:866-871 | a refresh with a token in force revokes it at that moment, whatever it answers |
| AuthAnswers.LogoutAnswers | src/modules/auth/auth.service.ts:895-927 | a logout is unauthorized exactly for a token that is not genuine or not the row's, and else revokes that token and no other |
| AuthAnswers.LogoutEndsTheSession | src/modules/auth/auth.service.ts:895-927 | the token of a completed logout is refused after any further requests |
| AuthAnswers.RevokesOneUser | src/modules/auth/auth.service.ts:805-815 | revoking a user's sessions revokes all of them and nobody else's |
| AuthAnswers.UnverifiedRefreshEndsSessions | src/modules/auth/auth.service.ts:881-890 | a refresh by a user whose address is no longer verified is forbidden and revokes all of that user's tokens and no other |
| AuthAnswers.ResetAnswers | src/modules/auth/auth.service.ts:597-640 | a reset is carried out if and only if the token is there, unused, not expired and of a user with the same address, and the new password has eight characters |
| AuthAnswers.ResetUsesItsToken | src/modules/auth/auth.service.ts:644-658 | the token a reset is carried out with is used up at that moment |
| AuthAnswers.ResetIsOpenForAnHour | src/modules/auth/auth.service.ts:234-262 | asking for a reset answers everybody alike; the token made can be used for exactly an hour, earlier ones of that user no more, and those of others as before |
| AuthPasswords.ResetChangesOnlyThePassword | src/modules/auth/auth.service.ts:643-675 | a confirmed reset changes the password of one user, nothing else of that user's row and no other row |
| AuthPasswords.PasswordIsTheLastGiven | src/modules/auth/auth.service.ts:643-675 | over every run a user's password hash is that of the last confirmed reset or change of the user |
| AuthPasswords.ResetReplacesThePassword | src/modules/auth/auth.service.ts:669-697 | after a confirmed reset, until the next password is given, a login of that user is unauthorized if and only if the password tried does not match the new hash |
| RoutePaths.SanitizeIsNormal | src/modules/api-observability/api-observability.service.ts:56-71 | every text becomes a path with a leading slash, no double slash, no trailing slash but the root's, no query and no fragment |
| RoutePaths.OwnPath | src/modules/api-observability/api-observability.service.ts:56-71 | a text is its own path if and only if it is in that form and does not end in white space |
| RoutePaths.SanitizeAgain | src/modules/api-observability/api-observability.service.ts:56-71 | normalising twice changes nothing more, if and only if no white space stands before the slash that the first time drops |
| RoutePaths.SanitizeAgainExample | src/modules/api-observability/api-observability.service.ts:56-71 | the text "/a /", which one pass takes to "/a " and a second to "/a" |
| RoutePaths.SpaceFreeSanitizesOnce | src/modules/api-observability/api-observability.service.ts:56-71 | texts without white space are normalised once and for all |
| RoutePaths.SanitizeIsSegments | src/modules/api-observability/api-route-inventory.service.ts:19-34 | on texts without white space the path is the list of non-empty segments before query and fragment, an independent definition |
| RoutePaths.JoinIsWhole | src/modules/api-observability/api-observability.service.ts:87-91 | normalising base and child and joining them gives what normalising the whole path gives |
| RoutePaths.CombinePaths | src/modules/api-observability/api-route-inventory.service.ts:55-79 | the nested loops give the patterns of all pairs of variants |
| RoutePaths.EveryHandlerIsListed | src/modules/api-observability/api-route-inventory.service.ts:36-53 | every handler has a listed pattern, and a missing, blank or empty path stands for the root |
| RoutePaths.ListedIsRecorded | src/modules/api-observability/api-observability.service.ts:74-102 | for one controller and one handler path the inventory lists exactly the recorded pattern, if and only if the handler's path is not blank or the request was for the controller's path |
| RoutePaths.BlankHandlerExample | src/modules/api-observability/api-observability.service.ts:74-102 | a handler with a blank path requested elsewhere, recorded under the raw path and listed under the controller's |
| RoutePaths.RecordedIsListed | src/modules/api-observability/api-route-inventory.service.ts:36-79 | with several paths on either side the recorded pattern is among the listed ones |
| RoutePaths.WholePathIsListed | src/modules/api-observability/api-observability.service.ts:74-102 | a request that carries the whole path and no base is recorded under the listed pattern too |
| RoutePaths.JoinAddsNothing | src/modules/api-observability/api-observability.interceptor.ts:66-66 | joining adds nothing to a base if and only if the child is a slash with at most white space behind it |
| RoutePaths.LoggedIsRecorded | src/modules/api-observability/api-observability.interceptor.ts:47-67 | for every kind of path, absent, blank, single or a list: the exact condition on base, path and raw path under which the interceptor logs the recorded pattern |
| RoutePaths.ListOfPathsExample | src/modules/api-observability/api-observability.interceptor.ts:47-67 | a handler with its paths in a list, recorded under the first and logged under the base alone |
| RouteMetrics.RouteKeyIsUnique | src/modules/api-observability/api-observability.service.ts:164-164 | a route key determines method and pattern |
| RouteMetrics.BucketsCountRequests | src/modules/api-observability/api-observability.service.ts:152-230 | the minute buckets of a route add up to its requests, in each counter |
| RouteMetrics.ApiObservabilityService.RecordRequest | src/modules/api-observability/api-observability.service.ts:152-230 | creates or increments the bucket of the request's minute and route |
| RouteMetrics.ApiRouteInventoryService.GetRouteInventory | src/modules/api-observability/api-route-inventory.service.ts:167-235 | the inventory holds exactly the routes of the handlers, each under its key, and is built once |
| RouteMetrics.ApiObservabilityService.MergeMetrics | src/modules/api-observability/api-observability.service.ts:373-406 | each key once; observed rows keep their counts and take the inventory's names, and routes without requests have zeros |
| RouteMetrics.MetricsCountRequests | src/modules/api-observability/api-observability.service.ts:293-406 | after any requests each merged metric has the category, method and pattern its key spells and counts exactly the requests of its route in the period |
| RouteMetrics.CountersMean | src/modules/api-observability/api-observability.service.ts:166-175 | what the counters of a route mean: its requests in the period, those answered with 200 to 399, 400 to 499 and 500 or more, and the time they took |
| RouteMetrics.ServedIsListed | src/modules/api-observability/api-route-inventory.service.ts:80-105 | a request that a handler serves under its method and first path is recorded as one of the handler's listed routes |
| RouteMetrics.RequestedRouteHasMetric | src/modules/api-observability/api-observability.service.ts:373-406 | every route requested in the period is in the merge |
| RouteMetrics.ListedRouteHasMetric | src/modules/api-observability/api-observability.service.ts:377-406 | every listed route is in the merge under its own name |
| BadgeSlug.SlugifyGivesSlug | src/modules/admin-badges/admin-badges.service.ts:111-119 | a text becomes nothing or 1 to 140 characters of a to z, 0 to 9 and single dashes, not led by a dash, and ended by one only at full length |
| BadgeSlug.OwnSlug | src/modules/admin-badges/admin-badges.service.ts:111-119 | the texts that are their own slug are exactly 1 to 140 small letters, digits and single dashes between them |
| BadgeSlug.CaseIsIgnored | src/modules/admin-badges/admin-badges.service.ts:111-119 | a text of letters and digits has the same slug in capitals |
| BadgeSlug.QuoteVanishes | src/modules/admin-badges/admin-badges.service.ts:111-119 | a quotation mark inside a text vanishes and leaves no dash |
| BadgeSlug.SlugifyAgain | src/modules/admin-badges/admin-badges.service.ts:111-119 | a slug is stable if and only if the text does not get cut at 140 characters right behind a dash |
| BadgeSlug.UnstableExample | src/modules/admin-badges/admin-badges.service.ts:111-119 | 139 plain characters, a space and a letter: the slug ends in a dash, and its own slug is a character shorter |
| BadgeSlug.NormalizeSlug | src/modules/admin-badges/admin-badges.service.ts:121-129 | the slug is the explicit text's, or the name's where that gives none; there is none if and only if neither does |
| BadgeSlug.CandidateIsSlug | src/modules/admin-badges/admin-badges.service.ts:150-153 | every candidate is a slug, and the word kept for an empty stem is never needed |
| BadgeSlug.CandidateIsNumbered | src/modules/admin-badges/admin-badges.service.ts:150-153 | a numbered candidate is a beginning of the base, all of it up to 135 characters, a dash, and one more than the number of failed tries |
| BadgeSlug.CandidatesDiffer | src/modules/admin-badges/admin-badges.service.ts:150-153 | numbered candidates of one base are pairwise different |
| BadgeSlug.BuildUniqueBadgeSlug | src/modules/admin-badges/admin-badges.service.ts:131-156 | the search ends with the first candidate that no other badge holds, or gives up after 999 that others hold |
| BadgeSlug.GivesUpOnlyWhenCrowded | src/modules/admin-badges/admin-badges.service.ts:131-156 | it gives up only when other badges hold at least 998 different slugs of its family |
| RateLimit.AddressIsTheFirst | src/common/guards/rate-limit.guard.ts:29-35 | the first forwarded address identifies the caller, else the adapter's, else the connection's, else "unknown" |
| RateLimit.BlankIsPassedOver | src/common/guards/rate-limit.guard.ts:29-35 | a forwarded text without an address before its first comma, or an empty one of the adapter, does not count |
| RateLimit.KeysMeet | src/common/guards/rate-limit.guard.ts:37-37 | the keys of two guards can meet if and only if their prefixes are equal or one continues the other after a colon |
| RateLimit.RetryAfterIsExact | src/common/guards/rate-limit.guard.ts:48-49 | a refused caller is admitted after a wait of whole seconds if and only if it is at least the one it was told |
| RateLimit.RetryAfter | src/common/guards/rate-limit.guard.ts:49-49 | the least whole number of seconds, at least one, after which the window has reset |
| RateLimit.BucketAdmits | src/common/guards/rate-limit.guard.ts:40-57 | from the request that opens a bucket to its reset exactly the first max(1, limit) requests of the key are admitted |
| RateLimit.AnyWindowAdmitsTwice | src/common/guards/rate-limit.guard.ts:40-57 | wherever an interval of one window's length begins, at most 2 max(1, limit) requests of a key in it are admitted |
| RateLimit.RateLimiter.CanActivate | src/common/guards/rate-limit.guard.ts:25-58 | one request opens, counts in or is refused by the bucket of its key |
| TopGifters.Summarize | src/modules/battles/battle-v2.serializer.ts:130-152 | the loop and the sort compute the total, the count and the top three |
| TopGifters.TallyHolds | src/modules/battles/battle-v2.serializer.ts:130-143 | one entry for each sender, holding what it sent and how often |
| TopGifters.TallyIsExact | src/modules/battles/battle-v2.serializer.ts:130-143 | and no other entries |
| TopGifters.TallyConserves | src/modules/battles/battle-v2.serializer.ts:130-143 | the entries together hold the diamonds and the number of the contributions that have a sender |
| TopGifters.TopIsBest | src/modules/battles/battle-v2.serializer.ts:145-152 | at most three different senders; nobody before another, and nobody placed before one left out, has fewer diamonds, or as many in fewer gifts |
| TopGifters.TopInAnyOrder | src/modules/battles/battle-v2.serializer.ts:145-152 | the places hold the same totals and counts for every order of the contributions |
| TopGifters.SentInAnyOrder | src/modules/battles/battle-v2.serializer.ts:188-195 | the summary's total, and each sender's, do not depend on the order |
| TopGifters.SidesInOrder | src/modules/battles/battle-v2.serializer.ts:15-21 | no side comes before one with a letter from A to D unless it has that letter or one before it; the sides are the same, and those with one letter, or with none of the four, keep their order |
| StableSort.SortSorts | src/modules/battles/battle-v2.serializer.ts:145-151 | the sort is ordered and loses nothing |
| StableSort.SortKeepsTies | src/modules/battles/battle-v2.serializer.ts:145-151 | and keeps the order of elements that tie |
| Strings.TrimTakesTheEnds | src/modules/api-observability/api-observability.service.ts:57-57 | trimming takes all white space off both ends and nothing else |
| Strings.SpacesAre | src/modules/api-observability/api-observability.service.ts:57-57 | what counts as white space, the 25 characters of ECMA-262 one by one |

## Left out

- Calendar.AddMonthsFields: covers unbounded dates; the reading of years 0 to 99 as 1900 to 1999 and the limits of the JavaScript date range are not modelled.
- AdServices.AdvertisementsService.CreateAdvertisement: the checks of texts, category and media are one flag, because only whether they pass matters to the tables kept here.
- AdModel.RequestedCycles: takes the duration as a whole number or none; reading it from a text is left out.
- AdServices.AdvertisementsService.UpdateAdvertisement: the same flag stands for its checks of texts and media.
- AdInvariants.RunKeepsConsistent: starts from tables made by the modelled requests; deleting inactive advertisements and cascades from other tables are left out.
- AuditMask.MaskStaffAdminIds: dates and other non-JSON objects do not occur in a JSON column and are not modelled.
- AuditCsv.ExportReadsBack: takes the items as strings already; the query, its filters and the text of dates are left out.
- AuthServices.AuthService.RequestPasswordReset: e-mail addresses are taken as normalised, and the mail itself is left out.
- AuthServices.AuthService.IssueTokens: a digest stands for SHA-256 and is taken to be free of collisions, a signed token for a JWT; the password hasher's comparison and the login gate are parameters.
- RouteMetrics.ApiObservabilityService.RecordRequest: the last status, last-seen and last-error fields of a bucket, and a failed write, which the service logs and forgets, are left out.
- RouteMetrics.ApiObservabilityService.MergeMetrics: percentages and latencies, which follow from the counters, the last-seen times and the final sort for display are left out.
- RouteMetrics.ApiRouteInventoryService.GetRouteInventory: the order of the list is left out, and the category of a pattern is a parameter.
- PermissionCache.AdminRolePermissionsService.GetEffectivePermissions: permission lists are sets, so their order is left out.
- TopGifters.SidesInOrder: a side key that is the name of a built-in object property is not modelled.
- Advertisement fields that only describe: media, texts, the monthly coin price, reasons, who paused and when it was cancelled; the DRAFT status and the REFUND and ADMIN_ADJUSTMENT events, which no code writes.
- The list of live advertisements and its order, which mixes null and false in its comparison.
- Concurrent requests for advertisements, sessions and badges: each is one step; interleaving is modelled for payouts and for permission caches.
- Database faults, failed commits and crashes: a transaction commits or rolls back as a whole.
- The release of earnings after their holding period as a job, and reversals of earnings by payments; which earnings a payout request chooses is a parameter.
- Sign-up, e-mail verification and the two-factor set-up, which appear only as changes of a user.
- Files, mail, realtime events, audit entries, controllers, search filters and row mappers, which hold no property of this kind.
- JavaScript numbers: money, counts and times are unbounded integers. Strings are sequences of characters rather than UTF-16 units.
