/** Billing cycles over whole runs: how many are charged, when they end, that a cancelled advertisement is
    charged no more, and when two paid cycles can overlap. */
module AdCycles {
  import opened Wrappers
  import opened Calendar
  import opened CivilCalendar
  import opened AdModel
  import opened AdLifecycle
  import opened AdInvariants

  // No call of the run starts a new activation of the advertisement.
  ghost predicate NoActivation(db: Db, calls: seq<Call>, id: Id)
    decreases |calls|
  {
    calls != [] ==>
      && (id in db.ads ==> !Activates(db.ads[id], MoveOf(db, calls[0].request, calls[0].at, id)))
      && NoActivation(Step(db, calls[0]), calls[1..], id)
  }

  lemma {:induction false} StepFollows(db: Db, call: Call, clock: int, id: Id)
    requires id in db.ads && RowOk(db.ads[id], clock) && clock <= call.at
    ensures id in Step(db, call).ads && RowOk(Step(db, call).ads[id], call.at)
    ensures CanMove(db.ads[id], MoveOf(db, call.request, call.at, id), call.at)
    ensures Step(db, call).ads[id] == Moved(db.ads[id], MoveOf(db, call.request, call.at, id), call.at)
    ensures MonthlyCharges(Step(db, call).events, id) == MonthlyCharges(db.events, id) +
      (if PaidBy(db.ads[id], MoveOf(db, call.request, call.at, id), call.at).Some? then 1 else 0)
    ensures RenewalAttempts(Step(db, call).events, id) == RenewalAttempts(db.events, id) +
      (if MoveOf(db, call.request, call.at, id).Renew? && Charges(db.ads[id], call.at) then 1 else 0)
  {
    RequestFollows(db, call.request, call.at, id);
    RequestCounts(db, call.request, call.at, id);
    StepKeepsRow(db, call, clock, id);
  }

  /* Cancelling. */

  // A cancelled advertisement has no billing date, and stays without one when an administrator resumes it:
  // either the cancellation is still marked or the last paid cycle is over.
  predicate CancelHolds(ad: Ad, clock: int) {
    ad.nextBillingAt.None? && ad.currentRevision.Some? && (ad.cancelAtCycleEnd || Elapsed(ad, clock))
  }

  lemma MoveKeepsCancel(ad: Ad, move: Move, clock: int, now: int)
    requires RowOk(ad, clock) && CanMove(ad, move, now) && clock <= now
    requires CancelHolds(ad, clock) && !Activates(ad, move)
    ensures CancelHolds(Moved(ad, move, now), now)
    ensures move.Renew? ==> !Charges(ad, now)
  {
  }

  lemma {:induction false} CancelHoldsOn(db: Db, clock: int, calls: seq<Call>, id: Id)
    requires id in db.ads && RowOk(db.ads[id], clock) && CancelHolds(db.ads[id], clock)
    requires InOrder(clock, calls) && NoActivation(db, calls, id)
    ensures RenewalAttempts(Run(db, calls).events, id) == RenewalAttempts(db.events, id)
    ensures MonthlyCharges(Run(db, calls).events, id) == MonthlyCharges(db.events, id)
    decreases |calls|
  {
    if calls != [] {
      var call := calls[0];
      StepFollows(db, call, clock, id);
      MoveKeepsCancel(db.ads[id], MoveOf(db, call.request, call.at, id), clock, call.at);
      CancelHoldsOn(Step(db, call), call.at, calls[1..], id);
    }
  }

  // After the owner's cancellation no charge is made or tried, through any mix of pauses, resumes, edits,
  // approvals, boosts and renewal runs, until the owner republishes or retries payment.
  lemma {:induction false} CancelIsFinal(db: Db, clock: int, user: Id, id: Id, at: int, calls: seq<Call>)
    requires id in db.ads && RowOk(db.ads[id], clock) && clock <= at && InOrder(at, calls)
    requires CancelAtCycleEnd(db, user, id).error.None?
    requires NoActivation(CancelAtCycleEnd(db, user, id).db, calls, id)
    ensures
      var cancelled := CancelAtCycleEnd(db, user, id).db;
      && RenewalAttempts(Run(cancelled, calls).events, id) == RenewalAttempts(cancelled.events, id)
      && MonthlyCharges(Run(cancelled, calls).events, id) == MonthlyCharges(cancelled.events, id)
  {
    var cancelled := CancelAtCycleEnd(db, user, id).db;
    StepKeepsRow(db, Call(CancelAd(user, id), at), clock, id);
    CancelHoldsOn(cancelled, at, calls, id);
  }

  /* Counting and dating the cycles. */

  // Since an activation at the given moment: every paid cycle is accounted for, and the last one ends exactly
  // that many months after the activation.
  predicate Accounted(ad: Ad, activatedAt: int, bought: Option<int>, cycles: int) {
    && cycles >= 1
    && ad.currentRevision.Some?
    && ad.anchorDay == Some(GetUtcDate(activatedAt))
    && ad.cycleEndsAt == Some(AddMonthsWithAnchor(activatedAt, cycles, GetUtcDate(activatedAt)))
    && ad.remainingCycles == (if bought.None? then None else Some(bought.value - cycles))
  }

  lemma ActivationIsAccounted(ad: Ad, move: Move, clock: int, now: int)
    requires RowOk(ad, clock) && CanMove(ad, move, now) && Activates(ad, move)
    ensures Accounted(Moved(ad, move, now), now, ad.requestedCycles, 1)
  {
  }

  lemma MoveStaysAccounted(ad: Ad, move: Move, clock: int, now: int, activatedAt: int, bought: Option<int>, cycles: int)
    requires RowOk(ad, clock) && CanMove(ad, move, now) && clock <= now && !Activates(ad, move)
    requires Accounted(ad, activatedAt, bought, cycles)
    ensures Accounted(Moved(ad, move, now), activatedAt, bought,
                      cycles + (if PaidBy(ad, move, now).Some? then 1 else 0))
  {
    hide AddMonthsWithAnchor, GetUtcDate;
    AddMonthsComposes(activatedAt, cycles, 1, GetUtcDate(activatedAt));
  }

  lemma {:induction false} RunStaysAccounted(
      db: Db, clock: int, calls: seq<Call>, id: Id, activatedAt: int, bought: Option<int>, cycles: int)
    requires id in db.ads && RowOk(db.ads[id], clock)
    requires InOrder(clock, calls) && NoActivation(db, calls, id)
    requires Accounted(db.ads[id], activatedAt, bought, cycles)
    ensures id in Run(db, calls).ads && RowOk(Run(db, calls).ads[id], ClockAfter(clock, calls))
    ensures Accounted(Run(db, calls).ads[id], activatedAt, bought,
                      cycles + MonthlyCharges(Run(db, calls).events, id) - MonthlyCharges(db.events, id))
    decreases |calls|
  {
    hide AddMonthsWithAnchor, GetUtcDate, Perform, MoveOf, Moved, RowOk;
    if calls != [] {
      var call := calls[0];
      var move := MoveOf(db, call.request, call.at, id);
      StepFollows(db, call, clock, id);
      MoveStaysAccounted(db.ads[id], move, clock, call.at, activatedAt, bought, cycles);
      RunStaysAccounted(Step(db, call), call.at, calls[1..], id, activatedAt, bought,
                        cycles + (if PaidBy(db.ads[id], move, call.at).Some? then 1 else 0));
    }
  }

  // From an activation until the next: charges made plus cycles remaining equal the cycles asked for when it
  // was activated, so an advertisement bought for k cycles is charged at most k times; and the n-th paid
  // cycle ends exactly n months after the activation, however many short months lie between.
  lemma {:induction false} ActivationBuysItsCycles(db: Db, clock: int, activation: Call, calls: seq<Call>, id: Id)
    requires id in db.ads && RowOk(db.ads[id], clock) && clock <= activation.at && InOrder(activation.at, calls)
    requires Activates(db.ads[id], MoveOf(db, activation.request, activation.at, id))
    requires NoActivation(Step(db, activation), calls, id)
    ensures
      var after := Run(Step(db, activation), calls);
      && id in after.ads
      && var charged := MonthlyCharges(after.events, id) - MonthlyCharges(db.events, id);
      && charged >= 1
      && after.ads[id].cycleEndsAt == Some(AddMonthsWithAnchor(activation.at, charged, GetUtcDate(activation.at)))
      && (db.ads[id].requestedCycles.Some? ==>
            && after.ads[id].remainingCycles.Some?
            && charged + after.ads[id].remainingCycles.value == db.ads[id].requestedCycles.value
            && charged <= db.ads[id].requestedCycles.value)
      && (db.ads[id].requestedCycles.None? ==> after.ads[id].remainingCycles.None?)
  {
    hide AddMonthsWithAnchor, GetUtcDate, Perform, MoveOf, Moved;
    StepFollows(db, activation, clock, id);
    ActivationIsAccounted(db.ads[id], MoveOf(db, activation.request, activation.at, id), clock, activation.at);
    RunStaysAccounted(Step(db, activation), activation.at, calls, id, activation.at, db.ads[id].requestedCycles, 1);
  }

  // In dates: activated on a given day, after n charges the cycle ends n months later on the same day of the month, or
  // on the month's last day when it has no such day, at the same time of day.
  lemma {:induction false} CyclesEndOnDates(
      db: Db, clock: int, activation: Call, calls: seq<Call>, id: Id, year: int, month: int, date: int, timeOfDay: int)
    requires id in db.ads && RowOk(db.ads[id], clock) && clock <= activation.at && InOrder(activation.at, calls)
    requires Activates(db.ads[id], MoveOf(db, activation.request, activation.at, id))
    requires NoActivation(Step(db, activation), calls, id)
    requires IsDate(year, month, date, timeOfDay) && activation.at == Instant(year, month, date, timeOfDay)
    ensures
      var after := Run(Step(db, activation), calls);
      var charged := MonthlyCharges(after.events, id) - MonthlyCharges(db.events, id);
      var y, m := year + (month + charged) / 12, (month + charged) % 12;
      && id in after.ads
      && after.ads[id].cycleEndsAt == Some(Instant(y, m, Min(date, CivilLength(y, m)), timeOfDay))
  {
    hide *;
    ActivationBuysItsCycles(db, clock, activation, calls, id);
    var charged := MonthlyCharges(Run(Step(db, activation), calls).events, id) - MonthlyCharges(db.events, id);
    OwnDayLands(year, month, date, timeOfDay, charged);
  }

  // Each of those cycles lasts 28 to 31 whole days, from the end of the one before it.
  lemma EveryCycleLasts(activatedAt: int, n: nat)
    ensures
      var anchorDay := GetUtcDate(activatedAt);
      var start := AddMonthsWithAnchor(activatedAt, n, anchorDay);
      var end := AddMonthsWithAnchor(activatedAt, n + 1, anchorDay);
      && AddMonthsWithAnchor(activatedAt, 0, anchorDay) == activatedAt
      && end == AddMonthsWithAnchor(start, 1, anchorDay)
      && (end - start) % MS_PER_DAY == 0
      && 28 * MS_PER_DAY <= end - start <= 31 * MS_PER_DAY
  {
    hide AddMonthsWithAnchor;
    var anchorDay := GetUtcDate(activatedAt);
    AddMonthsFields(activatedAt, 0, anchorDay);
    FieldsDetermineTime(AddMonthsWithAnchor(activatedAt, 0, anchorDay), activatedAt);
    AddMonthsFields(activatedAt, n, anchorDay);
    CycleLength(AddMonthsWithAnchor(activatedAt, n, anchorDay), anchorDay);
    AddMonthsComposes(activatedAt, n, 1, anchorDay);
  }

  /* Overlapping cycles. */

  // The paid cycles of an advertisement follow one another, and the row knows where the last one ends.
  ghost predicate CyclesDisjoint(db: Db, id: Id)
    requires id in db.ads
  {
    && (forall i, j :: 0 <= i < j < |db.events| && PaidCycle(db.events[i], id) && PaidCycle(db.events[j], id) ==>
          db.events[i].endsAt <= db.events[j].startsAt)
    && (forall i :: 0 <= i < |db.events| && PaidCycle(db.events[i], id) ==>
          db.ads[id].cycleEndsAt.Some? && db.events[i].endsAt <= db.ads[id].cycleEndsAt.value)
    && (db.ads[id].cycleEndsAt.Some? ==> LastPaidEnd(db, id, db.ads[id].cycleEndsAt.value))
  }

  ghost predicate LastPaidEnd(db: Db, id: Id, end: int) {
    exists i :: 0 <= i < |db.events| && PaidCycle(db.events[i], id) && db.events[i].endsAt == end
  }

  // A paid retry while a paid cycle is still running.
  predicate RetriesWhileRunning(db: Db, call: Call, id: Id)
    requires id in db.ads
  {
    && call.request.RetryAd? && call.request.id == id && Owned(db, call.request.user, id)
    && db.ads[id].currentRevision.Some? && Affordable(db, db.ads[id], call.at)
    && db.ads[id].cycleEndsAt.Some? && db.ads[id].cycleEndsAt.value > call.at
  }

  lemma PaidByExtends(ad: Ad, move: Move, clock: int, now: int)
    requires RowOk(ad, clock) && CanMove(ad, move, now) && clock <= now
    ensures
      var cycle := PaidBy(ad, move, now);
      && (cycle.None? ==> Moved(ad, move, now).cycleEndsAt == ad.cycleEndsAt)
      && (cycle.Some? ==>
            && Moved(ad, move, now).cycleEndsAt == Some(cycle.value.endsAt)
            && cycle.value.startsAt < cycle.value.endsAt
            && cycle.value.startsAt == if Activates(ad, move) then now else ad.cycleEndsAt.value)
  {
    AddMonthsAdvances(now, 1, GetUtcDate(now));
    if move.Renew? && Charges(ad, now) {
      AddMonthsAdvances(ad.nextBillingAt.value, 1, ad.anchorDay.value);
    }
  }

  lemma ActivationAfterEnd(db: Db, call: Call, clock: int, id: Id)
    requires id in db.ads && RowOk(db.ads[id], clock) && clock <= call.at
    ensures Activates(db.ads[id], MoveOf(db, call.request, call.at, id)) && !Elapsed(db.ads[id], call.at)
      <==> RetriesWhileRunning(db, call, id)
  {
  }

  // Every request keeps the paid cycles apart, except exactly a paid retry while a paid cycle is running:
  // that one charges again for time already paid.
  lemma CyclesStayDisjointUnlessRetried(db: Db, call: Call, clock: int, id: Id)
    requires id in db.ads && RowOk(db.ads[id], clock) && clock <= call.at && CyclesDisjoint(db, id)
    ensures id in Step(db, call).ads
    ensures CyclesDisjoint(Step(db, call), id) <==> !RetriesWhileRunning(db, call, id)
  {
    var ad, move := db.ads[id], MoveOf(db, call.request, call.at, id);
    var added := AddedEvents(db, call.request, call.at);
    StepFollows(db, call, clock, id);
    RequestBills(db, call.request, call.at, id);
    EventsAreAdded(db, call.request, call.at);
    PaidByExtends(ad, move, clock, call.at);
    ActivationAfterEnd(db, call, clock, id);
    DisjointAfter(db, Step(db, call), id, added);
  }

  ghost predicate NeverRetriesWhileRunning(db: Db, calls: seq<Call>, id: Id)
    decreases |calls|
  {
    calls != [] ==>
      && (id in db.ads ==> !RetriesWhileRunning(db, calls[0], id))
      && NeverRetriesWhileRunning(Step(db, calls[0]), calls[1..], id)
  }

  // So over every run without such a retry no time is paid for twice.
  lemma {:induction false} RunKeepsCyclesDisjoint(db: Db, clock: int, calls: seq<Call>, id: Id)
    requires id in db.ads && RowOk(db.ads[id], clock) && CyclesDisjoint(db, id)
    requires InOrder(clock, calls) && NeverRetriesWhileRunning(db, calls, id)
    ensures id in Run(db, calls).ads && CyclesDisjoint(Run(db, calls), id)
    decreases |calls|
  {
    hide Perform, RowOk, CyclesDisjoint, RetriesWhileRunning;
    if calls != [] {
      CyclesStayDisjointUnlessRetried(db, calls[0], clock, id);
      StepKeepsRow(db, calls[0], clock, id);
      RunKeepsCyclesDisjoint(Step(db, calls[0]), calls[0].at, calls[1..], id);
    }
  }

  // Two paid cycles that overlap; they stay in the events for good.
  ghost predicate Overlap(events: seq<BillingEvent>, id: Id) {
    exists i, j :: 0 <= i < j < |events| && PaidCycle(events[i], id) && PaidCycle(events[j], id)
                   && events[j].startsAt < events[i].endsAt
  }

  lemma {:induction false} OverlapStays(db: Db, calls: seq<Call>, id: Id)
    requires Overlap(db.events, id)
    ensures Overlap(Run(db, calls).events, id)
    decreases |calls|
  {
    hide Perform, AddedEvents;
    if calls != [] {
      var after := Step(db, calls[0]);
      EventsAreAdded(db, calls[0].request, calls[0].at);
      var i, j :| 0 <= i < j < |db.events| && PaidCycle(db.events[i], id) && PaidCycle(db.events[j], id)
                  && db.events[j].startsAt < db.events[i].endsAt;
      assert after.events[i] == db.events[i] && after.events[j] == db.events[j];
      OverlapStays(after, calls[1..], id);
    }
  }

  lemma RetryOverlaps(db: Db, call: Call, clock: int, id: Id)
    requires id in db.ads && RowOk(db.ads[id], clock) && clock <= call.at && CyclesDisjoint(db, id)
    requires RetriesWhileRunning(db, call, id)
    ensures Overlap(Step(db, call).events, id)
  {
    var ad, move := db.ads[id], MoveOf(db, call.request, call.at, id);
    var added, after := AddedEvents(db, call.request, call.at), Step(db, call);
    ActivationAfterEnd(db, call, clock, id);
    RequestBills(db, call.request, call.at, id);
    EventsAreAdded(db, call.request, call.at);
    hide Perform, AddedEvents, MoveOf;
    var n := |db.events|;
    var i :| 0 <= i < n && PaidCycle(db.events[i], id) && db.events[i].endsAt == ad.cycleEndsAt.value;
    assert after.events[i] == db.events[i] && after.events[n] == added[0];
  }

  // Whether the advertisement exists from the start or is created during the run.
  lemma {:induction false} DisjointExactlyWithoutRetry(db: Db, clock: int, calls: seq<Call>, id: Id)
    requires EventsKnown(db) && InOrder(clock, calls)
    requires id in db.ads ==> RowOk(db.ads[id], clock) && CyclesDisjoint(db, id)
    ensures id in Run(db, calls).ads ==>
      (CyclesDisjoint(Run(db, calls), id) <==> NeverRetriesWhileRunning(db, calls, id))
    decreases |calls|
  {
    hide Perform, RowOk, CyclesDisjoint, RetriesWhileRunning, EventsKnown;
    if calls != [] {
      var after := Step(db, calls[0]);
      StepKeepsEventsKnown(db, calls[0]);
      if id in after.ads {
        StepKeepsRow(db, calls[0], clock, id);
      }
      if id in db.ads {
        CyclesStayDisjointUnlessRetried(db, calls[0], clock, id);
      } else if id in after.ads {
        NewIsDisjoint(db, calls[0], id);
      }
      if id in db.ads && RetriesWhileRunning(db, calls[0], id) {
        RetryOverlaps(db, calls[0], clock, id);
        OverlapStays(after, calls[1..], id);
        OverlapIsNotDisjoint(Run(db, calls), id);
      } else {
        DisjointExactlyWithoutRetry(after, calls[0].at, calls[1..], id);
      }
    }
  }

  lemma NewIsDisjoint(db: Db, call: Call, id: Id)
    requires EventsKnown(db) && id !in db.ads && id in Step(db, call).ads
    ensures CyclesDisjoint(Step(db, call), id)
  {
    NewRows(db, call, id);
    NewHasNoEvents(db, call, id);
    hide Perform;
  }

  lemma OverlapIsNotDisjoint(db: Db, id: Id)
    requires Overlap(db.events, id)
    ensures id in db.ads ==> !CyclesDisjoint(db, id)
  {
  }

  // In every run from empty tables an advertisement is charged twice for some time if and only if payment was
  // retried while a paid cycle was running.
  lemma {:induction false} ReachableCyclesDisjoint(settings: Settings, clock: int, calls: seq<Call>, id: Id)
    requires InOrder(clock, calls)
    ensures var end := Run(EmptyDb(settings), calls);
            id in end.ads ==> (CyclesDisjoint(end, id) <==> NeverRetriesWhileRunning(EmptyDb(settings), calls, id))
  {
    DisjointExactlyWithoutRetry(EmptyDb(settings), clock, calls, id);
  }

  // Adding at most one event keeps the paid cycles apart exactly if the new cycle starts at or after the end
  // of the last one.
  lemma DisjointAfter(db: Db, after: Db, id: Id, added: seq<BillingEvent>)
    requires id in db.ads && id in after.ads && CyclesDisjoint(db, id)
    requires after.events == db.events + added && |added| <= 1
    requires added != [] && PaidCycle(added[0], id) ==>
      added[0].startsAt < added[0].endsAt && after.ads[id].cycleEndsAt == Some(added[0].endsAt)
    requires added == [] || !PaidCycle(added[0], id) ==> after.ads[id].cycleEndsAt == db.ads[id].cycleEndsAt
    ensures CyclesDisjoint(after, id) <==>
      (added != [] && PaidCycle(added[0], id) && db.ads[id].cycleEndsAt.Some? ==>
         db.ads[id].cycleEndsAt.value <= added[0].startsAt)
  {
    if added == [] || !PaidCycle(added[0], id) {
      DisjointWithoutPayment(db, after, id, added);
    } else {
      DisjointWithPayment(db, after, id, added[0]);
    }
  }

  lemma DisjointWithoutPayment(db: Db, after: Db, id: Id, added: seq<BillingEvent>)
    requires id in db.ads && id in after.ads && CyclesDisjoint(db, id)
    requires after.events == db.events + added && |added| <= 1 && (added == [] || !PaidCycle(added[0], id))
    requires after.ads[id].cycleEndsAt == db.ads[id].cycleEndsAt
    ensures CyclesDisjoint(after, id)
  {
    hide PaidCycle;
    var n := |db.events|;
    assert forall i :: 0 <= i < n ==> after.events[i] == db.events[i];
    assert forall i :: n <= i < |after.events| ==> after.events[i] == added[0];
    if db.ads[id].cycleEndsAt.Some? {
      var i :| 0 <= i < n && PaidCycle(db.events[i], id) && db.events[i].endsAt == db.ads[id].cycleEndsAt.value;
      assert PaidCycle(after.events[i], id);
    }
  }

  lemma DisjointWithPayment(db: Db, after: Db, id: Id, paid: BillingEvent)
    requires id in db.ads && id in after.ads && CyclesDisjoint(db, id)
    requires after.events == db.events + [paid] && PaidCycle(paid, id) && paid.startsAt < paid.endsAt
    requires after.ads[id].cycleEndsAt == Some(paid.endsAt)
    ensures CyclesDisjoint(after, id)
       <==> (db.ads[id].cycleEndsAt.Some? ==> db.ads[id].cycleEndsAt.value <= paid.startsAt)
  {
    hide PaidCycle;
    var n := |db.events|;
    assert forall i :: 0 <= i < n ==> after.events[i] == db.events[i];
    assert after.events[n] == paid;
    assert LastPaidEnd(after, id, paid.endsAt);
    if db.ads[id].cycleEndsAt.Some? {
      var i :| 0 <= i < n && PaidCycle(db.events[i], id) && db.events[i].endsAt == db.ads[id].cycleEndsAt.value;
      assert PaidCycle(after.events[i], id) && PaidCycle(after.events[n], id);
    }
  }

  // Retrying payment never asks for the advertisement's status: whatever it is, a pause by an administrator
  // included, the retry succeeds for the same reasons and leaves the same live advertisement.
  lemma RetryIgnoresStatus(db: Db, user: Id, id: Id, now: int, status: AdStatus)
    requires Owned(db, user, id)
    ensures
      var ad := db.ads[id];
      var other := db.(ads := db.ads[id := ad.(status := status)]);
      var retried := RetryAdPayment(db, user, id, now);
      && (retried.error.None? <==>
            ad.currentRevision.Some? && Affordable(db, ad, now))
      && (retried.error.None? ==> retried.db.ads[id].status == Live && RetryAdPayment(other, user, id, now) == retried)
      && (retried.error.Some? ==> RetryAdPayment(other, user, id, now).error == retried.error)
  {
    hide CalculatePromoPrice, FirstCycleEnd;
    var ad := db.ads[id];
    var other := db.(ads := db.ads[id := ad.(status := status)]);
    assert ChargeEvent(other, id, other.ads[id], RetryPayment, now, FirstCycleEnd(now))
        == ChargeEvent(db, id, ad, RetryPayment, now, FirstCycleEnd(now));
    var row := ActivatedRow(ad, now);
    assert ActivatedRow(other.ads[id], now) == row && other.ads[id := row] == db.ads[id := row];
  }

  // A run that charges twice for the same time: an advertisement is created, approved and, at once, retried.
  lemma RetryOverlapExample(settings: Settings, now: int)
    requires settings.enabled && settings.allowedCurrencies == {Diamonds}
    requires PromoActive(settings, now) && settings.promoFreeAdCreation
    ensures
      var start := EmptyDb(settings);
      var end := Run(start, [Call(CreateAd(1, 1, 1, Body(true, Diamonds, None)), now), Call(ApproveAd(1), now),
                             Call(RetryAd(1, 1), now)]);
      && |end.events| == 2 && PaidCycle(end.events[0], 1) && PaidCycle(end.events[1], 1)
      && end.events[1].startsAt < end.events[0].endsAt
  {
    hide AddMonthsWithAnchor;
    var start := EmptyDb(settings);
    var create := Call(CreateAd(1, 1, 1, Body(true, Diamonds, None)), now);
    var approve, retry := Call(ApproveAd(1), now), Call(RetryAd(1, 1), now);
    var created := Step(start, create);
    var approved := Step(created, approve);
    AddMonthsAdvances(now, 1, GetUtcDate(now));
    assert created.ads == map[1 := NewAd(1, 1, Body(true, Diamonds, None), settings)];
    assert |approved.events| == 1 && PaidCycle(approved.events[0], 1)
        && approved.events[0].endsAt == FirstCycleEnd(now);
    var retried := Step(approved, retry);
    assert |retried.events| == 2 && PaidCycle(retried.events[1], 1) && retried.events[1].startsAt == now;
    RunOfThree(start, create, approve, retry);
  }

  lemma {:induction false} RunOfThree(db: Db, a: Call, b: Call, c: Call)
    ensures Run(db, [a, b, c]) == Step(Step(Step(db, a), b), c)
  {
    hide Step;
    var first, second := Step(db, a), Step(Step(db, a), b);
    assert [a, b, c][1..] == [b, c] && [b, c][1..] == [c] && [c][1..] == [];
    assert Run(first, [b, c]) == Run(second, [c]);
    assert Run(second, [c]) == Run(Step(second, c), []);
  }
}
