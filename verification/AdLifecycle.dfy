/** The life of one advertisement as a small machine of its own, and the proof that every request moves each
    advertisement by one of its moves. What holds of the small machine then holds of the tables. */
module AdLifecycle {
  import opened Wrappers
  import opened AdModel

  datatype Move =
    | Stay
    | Edit(currency: Currency, cycles: Option<int>, revision: Id)
    | Approve(revision: Id, paid: bool)
    | Deny
    | Pause
    | Resume
    | Cancel
    | Buy(boostedUntil: int)
    | Reactivate
    | Renew(paid: bool)

  // When a move is open to an advertisement.
  predicate CanMove(ad: Ad, move: Move, now: int) {
    match move
    case Edit(_, cycles, _) => cycles.Some? ==> 1 <= cycles.value <= 120
    case Cancel => ad.status in {Live, PaymentFailed}
    case Buy(until) => ad.status == Live && until > now && (ad.boostedUntil.Some? ==> ad.boostedUntil.value < until)
    case Resume => ad.currentRevision.Some?
    case Reactivate => ad.currentRevision.Some?
    case _ => true
  }

  // The renewal job charges exactly the live advertisements whose billing date has come, unless all their
  // cycles are used up.
  predicate Charges(ad: Ad, now: int) {
    && ad.status == Live && Reached(ad.nextBillingAt, now)
    && !(ad.remainingCycles == Some(0) && Reached(ad.cycleEndsAt, now))
  }

  function Moved(ad: Ad, move: Move, now: int): Ad {
    match move
    case Stay => ad
    case Edit(currency, cycles, revision) =>
      ad.(latestSubmittedRevision := Some(revision), currency := currency, requestedCycles := cycles,
          status := if ad.currentRevision.Some? then ad.status else PendingReview)
    case Approve(revision, paid) =>
      var approved := ad.(currentRevision := Some(revision), latestSubmittedRevision := Some(revision));
      if ad.currentRevision.Some? then approved
      else if paid then ActivatedRow(approved, now)
      else approved.(status := PaymentFailed)
    case Deny => if ad.currentRevision.Some? then ad else ad.(status := Denied)
    case Pause => ad.(status := AdminPaused, nextBillingAt := None)
    case Resume => ResumedRow(ad, now)
    case Cancel =>
      if ad.status == Live then ad.(status := CancelledEnding, cancelAtCycleEnd := true, nextBillingAt := None)
      else ad.(status := Inactive, cancelAtCycleEnd := false, nextBillingAt := None)
    case Buy(until) => ad.(boostedUntil := Some(until), lastBoostedAt := Some(now))
    case Reactivate => ActivatedRow(ad, now)
    case Renew(paid) =>
      if Charges(ad, now) then
        if paid then RenewedRow(ad, now) else ad.(status := PaymentFailed, nextBillingAt := None)
      else if ad.status == CancelledEnding && Reached(ad.cycleEndsAt, now) then
        ad.(status := Inactive, cancelAtCycleEnd := false, nextBillingAt := None)
      else if ad.status == Live && ad.remainingCycles == Some(0) && Reached(ad.cycleEndsAt, now) then
        ad.(status := Expired, nextBillingAt := None)
      else ad
  }

  // The move a request makes on one advertisement.
  function MoveOf(db: Db, request: Request, now: int, id: Id): Move
    requires id in db.ads
  {
    if Perform(db, request, now).error.Some? then Stay
    else
      match request
      case UpdateAd(_, target, revision, body) =>
        if target == id then Edit(body.currency, RequestedCycles(body.requestedDuration), revision) else Stay
      case ApproveAd(revision) =>
        if db.revisions[revision].ad == id then
          Approve(revision, ChargeEvent(db, id, db.ads[id], InitialCharge, now, FirstCycleEnd(now)).succeeded)
        else Stay
      case DenyAd(revision, _) => if db.revisions[revision].ad == id then Deny else Stay
      case PauseAd(target, _) => if target == id then Pause else Stay
      case ResumeAd(target) => if target == id then Resume else Stay
      case CancelAd(_, target) => if target == id then Cancel else Stay
      case BoostAd(user, target, choice) =>
        if target == id then Buy(BoostEvent(db, user, id, db.ads[id], choice, now).endsAt) else Stay
      case RepublishAd(_, target) => if target == id then Reactivate else Stay
      case RetryAd(_, target) => if target == id then Reactivate else Stay
      case RenewAd(target) =>
        if target == id then Renew(db.ads[id].nextBillingAt.Some? && RenewalIsPaid(db, id)) else Stay
      case _ => Stay
  }

  predicate RenewalIsPaid(db: Db, id: Id)
    requires id in db.ads && db.ads[id].nextBillingAt.Some?
  {
    ChargeEvent(db, id, db.ads[id], Renewal, db.ads[id].nextBillingAt.value, NextCycleEnd(db.ads[id])).succeeded
  }

  ghost predicate Follows(db: Db, request: Request, now: int, id: Id)
    requires id in db.ads
  {
    var after := Perform(db, request, now).db;
    var move := MoveOf(db, request, now, id);
    id in after.ads && CanMove(db.ads[id], move, now) && after.ads[id] == Moved(db.ads[id], move, now)
  }

  lemma OwnerFollows(db: Db, request: Request, now: int, id: Id)
    requires id in db.ads && (request.CreateAd? || request.UpdateAd? || request.BoostAd? || request.CancelAd?)
    ensures Follows(db, request, now, id)
  {
  }

  lemma ApprovalFollows(db: Db, request: Request, now: int, id: Id)
    requires id in db.ads && request.ApproveAd?
    ensures Follows(db, request, now, id)
  {
  }

  lemma ActivationFollows(db: Db, request: Request, now: int, id: Id)
    requires id in db.ads && (request.RepublishAd? || request.RetryAd?)
    ensures Follows(db, request, now, id)
  {
  }

  lemma RenewalFollows(db: Db, request: Request, now: int, id: Id)
    requires id in db.ads && request.RenewAd?
    ensures Follows(db, request, now, id)
  {
  }

  // Every request, whatever it does to the tables, moves each advertisement by one move of its life.
  lemma RequestFollows(db: Db, request: Request, now: int, id: Id)
    requires id in db.ads
    ensures Follows(db, request, now, id)
  {
    match request
    case CreateAd(_, _, _, _) => OwnerFollows(db, request, now, id);
    case UpdateAd(_, _, _, _) => OwnerFollows(db, request, now, id);
    case BoostAd(_, _, _) => OwnerFollows(db, request, now, id);
    case CancelAd(_, _) => OwnerFollows(db, request, now, id);
    case ApproveAd(_) => ApprovalFollows(db, request, now, id);
    case RepublishAd(_, _) => ActivationFollows(db, request, now, id);
    case RetryAd(_, _) => ActivationFollows(db, request, now, id);
    case RenewAd(_) => RenewalFollows(db, request, now, id);
    case _ =>
  }

  /* Charges. */

  // An activation starts a paid cycle at the present moment.
  predicate Activates(ad: Ad, move: Move) {
    move.Reactivate? || (move.Approve? && move.paid && ad.currentRevision.None?)
  }

  datatype Cycle = Cycle(startsAt: int, endsAt: int)

  // The cycle a move pays for.
  function PaidBy(ad: Ad, move: Move, now: int): Option<Cycle> {
    if Activates(ad, move) then Some(Cycle(now, FirstCycleEnd(now)))
    else if move.Renew? && move.paid && Charges(ad, now) then Some(Cycle(ad.nextBillingAt.value, NextCycleEnd(ad)))
    else None
  }

  predicate PaidCycle(event: BillingEvent, id: Id) {
    event.ad == id && event.succeeded && event.kind != Boost
  }

  // The successful monthly charges of an advertisement.
  function MonthlyCharges(events: seq<BillingEvent>, id: Id): (charges: nat) {
    if events == [] then 0
    else
      var last := events[|events| - 1];
      MonthlyCharges(events[..|events| - 1], id) + (if PaidCycle(last, id) then 1 else 0)
  }

  // Its renewal charges, successful or not.
  function RenewalAttempts(events: seq<BillingEvent>, id: Id): (charges: nat) {
    if events == [] then 0
    else
      var last := events[|events| - 1];
      RenewalAttempts(events[..|events| - 1], id) + (if last.ad == id && last.kind == Renewal then 1 else 0)
  }

  lemma {:induction false} OneMoreEvent(events: seq<BillingEvent>, event: BillingEvent, id: Id)
    ensures MonthlyCharges(events + [event], id) ==
      MonthlyCharges(events, id) + (if PaidCycle(event, id) then 1 else 0)
    ensures RenewalAttempts(events + [event], id) ==
      RenewalAttempts(events, id) + (if event.ad == id && event.kind == Renewal then 1 else 0)
  {
    assert (events + [event])[..|events|] == events;
  }

  // The billing events a request adds: at most one.
  function AddedEvents(db: Db, request: Request, now: int): seq<BillingEvent> {
    if Perform(db, request, now).error.Some? then []
    else
      match request
      case ApproveAd(revision) =>
        var id := db.revisions[revision].ad;
        if db.ads[id].currentRevision.Some? then []
        else [ChargeEvent(db, id, db.ads[id], InitialCharge, now, FirstCycleEnd(now))]
      case RepublishAd(_, id) => [ChargeEvent(db, id, db.ads[id], Republish, now, FirstCycleEnd(now))]
      case RetryAd(_, id) => [ChargeEvent(db, id, db.ads[id], RetryPayment, now, FirstCycleEnd(now))]
      case RenewAd(id) =>
        if id !in db.ads || !Charges(db.ads[id], now) then []
        else [ChargeEvent(db, id, db.ads[id], Renewal, db.ads[id].nextBillingAt.value, NextCycleEnd(db.ads[id]))]
      case BoostAd(user, id, choice) => [BoostEvent(db, user, id, db.ads[id], choice, now)]
      case _ => []
  }

  lemma ActivationAddsEvents(db: Db, request: Request, now: int)
    requires request.RepublishAd? || request.RetryAd?
    ensures Perform(db, request, now).db.events == db.events + AddedEvents(db, request, now)
  {
  }

  lemma EventsAreAdded(db: Db, request: Request, now: int)
    ensures Perform(db, request, now).db.events == db.events + AddedEvents(db, request, now)
  {
    if request.RepublishAd? || request.RetryAd? {
      ActivationAddsEvents(db, request, now);
    } else if request.ApproveAd? || request.RenewAd? {
      ChargingAddsEvents(db, request, now);
    } else {
      hide ChargeEvent, Charge, BoostEvent;
    }
  }

  lemma ChargingAddsEvents(db: Db, request: Request, now: int)
    requires request.ApproveAd? || request.RenewAd?
    ensures Perform(db, request, now).db.events == db.events + AddedEvents(db, request, now)
  {
    hide CalculatePromoPrice, FirstCycleEnd, NextCycleEnd;
  }

  // The billing events tell the moves: a successful monthly charge for the cycle each activation and each paid
  // renewal pays for, and a renewal attempt for each time the job charged.
  ghost predicate Bills(db: Db, request: Request, now: int, id: Id)
    requires id in db.ads
  {
    var ad, move := db.ads[id], MoveOf(db, request, now, id);
    var added, cycle := AddedEvents(db, request, now), PaidBy(ad, move, now);
    && |added| <= 1
    && (cycle.Some? ==>
          added != [] && PaidCycle(added[0], id)
          && added[0].startsAt == cycle.value.startsAt && added[0].endsAt == cycle.value.endsAt)
    && (cycle.None? && added != [] ==> !PaidCycle(added[0], id))
    && (added != [] && added[0].ad == id && added[0].kind == Renewal <==> move.Renew? && Charges(ad, now))
  }

  lemma ApprovalBills(db: Db, request: Request, now: int, id: Id)
    requires id in db.ads && request.ApproveAd?
    ensures Bills(db, request, now, id)
  {
  }

  lemma RenewalBills(db: Db, request: Request, now: int, id: Id)
    requires id in db.ads && request.RenewAd?
    ensures Bills(db, request, now, id)
  {
  }

  lemma RequestBills(db: Db, request: Request, now: int, id: Id)
    requires id in db.ads
    ensures Bills(db, request, now, id)
  {
    hide CalculatePromoPrice, FirstCycleEnd, NextCycleEnd, CoinRate, Pay;
    match request
    case ApproveAd(_) => ApprovalBills(db, request, now, id);
    case RenewAd(_) => RenewalBills(db, request, now, id);
    case _ =>
  }

  // The counts after a request.
  lemma {:induction false} RequestCounts(db: Db, request: Request, now: int, id: Id)
    requires id in db.ads
    ensures MonthlyCharges(Perform(db, request, now).db.events, id) ==
      MonthlyCharges(db.events, id) + (if PaidBy(db.ads[id], MoveOf(db, request, now, id), now).Some? then 1 else 0)
    ensures RenewalAttempts(Perform(db, request, now).db.events, id) ==
      RenewalAttempts(db.events, id) +
      (if MoveOf(db, request, now, id).Renew? && Charges(db.ads[id], now) then 1 else 0)
  {
    RequestBills(db, request, now, id);
    EventsAreAdded(db, request, now);
    CountAdded(db.events, AddedEvents(db, request, now), id);
  }

  lemma {:induction false} CountAdded(events: seq<BillingEvent>, added: seq<BillingEvent>, id: Id)
    requires |added| <= 1
    ensures MonthlyCharges(events + added, id) ==
      MonthlyCharges(events, id) + (if added != [] && PaidCycle(added[0], id) then 1 else 0)
    ensures RenewalAttempts(events + added, id) ==
      RenewalAttempts(events, id) + (if added != [] && added[0].ad == id && added[0].kind == Renewal then 1 else 0)
  {
    if added != [] {
      assert added == [added[0]];
      OneMoreEvent(events, added[0], id);
    } else {
      assert events + added == events;
    }
  }
}
