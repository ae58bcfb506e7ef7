/** When each request is accepted, who may make it, and how it moves the statuses of advertisements and revisions. */
module AdDecisions {
  import opened Wrappers
  import opened AdModel
  import opened AdLifecycle
  import opened AdInvariants
  import opened AdMoney
  import opened AdPrices

  /* Acceptance. */

  predicate ContentOk(body: Body, settings: Settings) {
    settings.enabled && body.contentOk && body.currency in settings.allowedCurrencies
  }

  predicate OwnedBy(db: Db, user: Id, id: Id) {
    id in db.ads && db.ads[id].owner == user
  }

  // Waiting for review.
  predicate AwaitsReview(db: Db, revision: Id) {
    && revision in db.revisions && db.revisions[revision].ad in db.ads
    && db.revisions[revision].status == Submitted
  }

  predicate CoversBoost(db: Db, user: Id, currency: Currency) {
    Holds(db, user, currency)
    >= if currency == Coins then BoostPrice(db.settings) * CoinsPerDiamond(db.settings) else BoostPrice(db.settings)
  }

  // A request for the owner's own approved advertisement.
  predicate OwnsApproved(db: Db, user: Id, id: Id) {
    OwnedBy(db, user, id) && db.ads[id].currentRevision.Some?
  }

  // The guards of every request.
  predicate Allowed(db: Db, request: Request, now: int) {
    match request
    case CreateAd(_, id, revision, body) =>
      ContentOk(body, db.settings) && id !in db.ads && revision !in db.revisions
    case UpdateAd(user, id, revision, body) =>
      && OwnedBy(db, user, id) && ContentOk(body, db.settings) && revision !in db.revisions
      && forall r :: r in db.revisions && db.revisions[r].ad == id ==> db.revisions[r].status != Submitted
    case ApproveAd(revision) => AwaitsReview(db, revision)
    case DenyAd(revision, hasReason) => hasReason && AwaitsReview(db, revision)
    case PauseAd(id, hasReason) => hasReason && id in db.ads
    case ResumeAd(id) => id in db.ads && db.ads[id].currentRevision.Some?
    case BoostAd(user, id, choice) =>
      && db.settings.boostEnabled && OwnsApproved(db, user, id) && db.ads[id].status == Live
      && CoversBoost(db, user, if choice.Some? then choice.value else db.ads[id].currency)
    case CancelAd(user, id) => OwnedBy(db, user, id) && db.ads[id].status in {Live, PaymentFailed}
    case RepublishAd(user, id) =>
      && OwnsApproved(db, user, id) && db.ads[id].status in {Inactive, Expired, PaymentFailed}
      && Affordable(db, db.ads[id], now)
    case RetryAd(user, id) => OwnsApproved(db, user, id) && Affordable(db, db.ads[id], now)
    case _ => true
  }

  lemma BoostIsAllowed(db: Db, user: Id, id: Id, choice: Option<Currency>, now: int)
    ensures BoostAdvertisement(db, user, id, choice, now).error.None? <==> Allowed(db, BoostAd(user, id, choice), now)
  {
    assert CoinRate(db.settings) == CoinsPerDiamond(db.settings);
    hide CoinRate;
  }

  // Every request is accepted exactly under its guards; a refused one changes nothing.
  lemma AcceptedExactly(db: Db, request: Request, now: int)
    ensures Perform(db, request, now).error.None? <==> Allowed(db, request, now)
    ensures Perform(db, request, now).error.Some? ==> Perform(db, request, now).db == db
  {
    hide MonthlyPrice, FirstCycleEnd;
    if request.BoostAd? {
      BoostIsAllowed(db, request.user, request.id, request.choice, now);
      hide BoostEvent;
    }
  }

  // What a refusal says. An advertisement of somebody else is refused as one that does not exist.
  predicate Missing(db: Db, request: Request) {
    match request
    case UpdateAd(user, id, _, _) => !OwnedBy(db, user, id)
    case BoostAd(user, id, _) => db.settings.boostEnabled && !OwnedBy(db, user, id)
    case CancelAd(user, id) => !OwnedBy(db, user, id)
    case RepublishAd(user, id) => !OwnedBy(db, user, id)
    case RetryAd(user, id) => !OwnedBy(db, user, id)
    case ApproveAd(revision) => !(revision in db.revisions && db.revisions[revision].ad in db.ads)
    case DenyAd(revision, hasReason) => hasReason && !(revision in db.revisions && db.revisions[revision].ad in db.ads)
    case PauseAd(id, hasReason) => hasReason && id !in db.ads
    case ResumeAd(id) => id !in db.ads
    case _ => false
  }

  predicate OffOrUnpaid(db: Db, request: Request, now: int) {
    match request
    case CreateAd(_, _, _, _) => !db.settings.enabled
    case UpdateAd(user, id, _, _) => OwnedBy(db, user, id) && !HasPendingRevision(db, id) && !db.settings.enabled
    case BoostAd(user, id, choice) =>
      || !db.settings.boostEnabled
      || (OwnsApproved(db, user, id) && db.ads[id].status == Live
          && !CoversBoost(db, user, if choice.Some? then choice.value else db.ads[id].currency))
    case RepublishAd(user, id) =>
      && OwnsApproved(db, user, id) && db.ads[id].status in {Inactive, Expired, PaymentFailed}
      && !Affordable(db, db.ads[id], now)
    case RetryAd(user, id) => OwnsApproved(db, user, id) && !Affordable(db, db.ads[id], now)
    case _ => false
  }

  predicate Taken(db: Db, request: Request) {
    match request
    case CreateAd(_, id, revision, body) => ContentOk(body, db.settings) && (id in db.ads || revision in db.revisions)
    case UpdateAd(user, id, revision, body) =>
      && OwnedBy(db, user, id) && !HasPendingRevision(db, id) && ContentOk(body, db.settings)
      && revision in db.revisions
    case _ => false
  }

  lemma BoostRefusedFor(db: Db, user: Id, id: Id, choice: Option<Currency>, now: int)
    ensures var error := BoostAdvertisement(db, user, id, choice, now).error;
            && (error == Some(NotFound) <==> Missing(db, BoostAd(user, id, choice)))
            && (error == Some(Forbidden) <==> OffOrUnpaid(db, BoostAd(user, id, choice), now))
            && error != Some(UniqueViolation)
  {
    assert CoinRate(db.settings) == CoinsPerDiamond(db.settings);
    hide CoinRate;
  }

  lemma RefusedFor(db: Db, request: Request, now: int)
    ensures Perform(db, request, now).error == Some(NotFound) <==> Missing(db, request)
    ensures Perform(db, request, now).error == Some(Forbidden) <==> OffOrUnpaid(db, request, now)
    ensures Perform(db, request, now).error == Some(UniqueViolation) <==> Taken(db, request)
  {
    hide MonthlyPrice, FirstCycleEnd;
    if request.BoostAd? {
      BoostRefusedFor(db, request.user, request.id, request.choice, now);
      hide BoostEvent;
    }
  }

  /* Ownership. */

  // A request that somebody other than the given user makes as an owner.
  predicate ByAnother(request: Request, owner: Id) {
    match request
    case CreateAd(user, _, _, _) => user != owner
    case UpdateAd(user, _, _, _) => user != owner
    case BoostAd(user, _, _) => user != owner
    case CancelAd(user, _) => user != owner
    case RepublishAd(user, _) => user != owner
    case RetryAd(user, _) => user != owner
    case _ => false
  }

  lemma OthersStepAside(db: Db, call: Call, id: Id)
    requires id in db.ads && ByAnother(call.request, db.ads[id].owner)
    ensures id in Step(db, call).ads && Step(db, call).ads[id] == db.ads[id]
    ensures WalletOf(Step(db, call), db.ads[id].owner) == WalletOf(db, db.ads[id].owner)
  {
    var owner := db.ads[id].owner;
    RequestFollows(db, call.request, call.at, id);
    RequestAccounts(db, call.request, call.at, owner);
    assert MoveOf(db, call.request, call.at, id) == Stay;
    OthersPay(db, call, owner);
    hide Perform, AddedEntries, MoveOf;
  }

  lemma OthersPay(db: Db, call: Call, owner: Id)
    requires ByAnother(call.request, owner)
    ensures var entries := AddedEntries(db, call.request, call.at);
            entries != [] ==> entries[0].user != owner
  {
    hide MonthlyPrice, FirstCycleEnd;
  }

  // Over any run of requests by others, neither the advertisement nor its owner's wallet changes.
  lemma {:induction false} OnlyTheOwnerActs(db: Db, calls: seq<Call>, id: Id)
    requires id in db.ads && forall i :: 0 <= i < |calls| ==> ByAnother(calls[i].request, db.ads[id].owner)
    ensures id in Run(db, calls).ads && Run(db, calls).ads[id] == db.ads[id]
    ensures WalletOf(Run(db, calls), db.ads[id].owner) == WalletOf(db, db.ads[id].owner)
    decreases |calls|
  {
    hide Step, ByAnother;
    if calls != [] {
      OthersStepAside(db, calls[0], id);
      OnlyTheOwnerActs(Step(db, calls[0]), calls[1..], id);
    }
  }

  /* Statuses. */

  // A request that was accepted and is for the given advertisement.
  predicate Accepted(db: Db, request: Request, now: int) {
    Perform(db, request, now).error.None?
  }

  predicate Approves(db: Db, request: Request, now: int, id: Id) {
    Accepted(db, request, now) && request.ApproveAd? && db.revisions[request.revision].ad == id
  }

  predicate Ended(ad: Ad, now: int) {
    ad.cycleEndsAt.Some? && ad.cycleEndsAt.value <= now
  }

  // The one thing that moves an advertisement into each status.
  predicate Cause(db: Db, request: Request, now: int, id: Id, to: AdStatus)
    requires id in db.ads
  {
    var ad, ok := db.ads[id], Accepted(db, request, now);
    match to
    case PendingReview => ok && request.UpdateAd? && request.id == id && ad.currentRevision.None?
    case Denied =>
      ok && request.DenyAd? && db.revisions[request.revision].ad == id && ad.currentRevision.None?
    case Live =>
      || (Approves(db, request, now, id) && ad.currentRevision.None? && Affordable(db, ad, now))
      || (ok && (request.RepublishAd? || request.RetryAd?) && request.id == id)
      || (ok && request.ResumeAd? && request.id == id && ad.cycleEndsAt.Some? && now < ad.cycleEndsAt.value)
    case CancelledEnding => ok && request.CancelAd? && request.id == id && ad.status == Live
    case Inactive =>
      || (ok && request.CancelAd? && request.id == id && ad.status == PaymentFailed)
      || (ok && request.ResumeAd? && request.id == id && (ad.cycleEndsAt.None? || ad.cycleEndsAt.value <= now))
      || (request == RenewAd(id) && ad.status == CancelledEnding && Ended(ad, now))
    case Expired =>
      request == RenewAd(id) && ad.status == Live && ad.remainingCycles == Some(0) && Ended(ad, now)
    case PaymentFailed =>
      || (Approves(db, request, now, id) && ad.currentRevision.None? && !Affordable(db, ad, now))
      || (request == RenewAd(id) && ad.status == Live && !(ad.remainingCycles == Some(0) && Ended(ad, now))
          && ad.nextBillingAt.Some? && ad.nextBillingAt.value <= now && !Affordable(db, ad, ad.nextBillingAt.value))
    case AdminPaused => ok && request.PauseAd? && request.id == id
  }

  lemma CauseMoves(db: Db, request: Request, now: int, id: Id, to: AdStatus)
    requires id in db.ads && Cause(db, request, now, id, to)
    ensures id in Perform(db, request, now).db.ads && Perform(db, request, now).db.ads[id].status == to
  {
    hide MonthlyPrice, Affordable, FirstCycleEnd, NextCycleEnd;
    RequestFollows(db, request, now, id);
  }

  lemma MovedHasCause(db: Db, request: Request, now: int, id: Id)
    requires id in db.ads
    ensures id in Perform(db, request, now).db.ads
    ensures var to := Perform(db, request, now).db.ads[id].status;
            to != db.ads[id].status ==> Cause(db, request, now, id, to)
  {
    if request.ApproveAd? || request.RenewAd? {
      BilledHasCause(db, request, now, id);
    } else {
      hide MonthlyPrice, Affordable, FirstCycleEnd, NextCycleEnd, RenewAdvertisement, ApproveRevision, Charges;
      RequestFollows(db, request, now, id);
    }
  }

  lemma BilledHasCause(db: Db, request: Request, now: int, id: Id)
    requires id in db.ads && (request.ApproveAd? || request.RenewAd?)
    ensures id in Perform(db, request, now).db.ads
    ensures var to := Perform(db, request, now).db.ads[id].status;
            to != db.ads[id].status ==> Cause(db, request, now, id, to)
  {
    hide MonthlyPrice, Affordable, FirstCycleEnd, NextCycleEnd;
    RequestFollows(db, request, now, id);
  }

  // The diagram of the statuses: an advertisement is in a status after a request exactly if that request moved it
  // there, or it was there and nothing moved it elsewhere.
  lemma StatusesMoveAlong(db: Db, request: Request, now: int, id: Id, to: AdStatus)
    requires id in db.ads
    ensures id in Perform(db, request, now).db.ads
    ensures Perform(db, request, now).db.ads[id].status == to
        <==> Cause(db, request, now, id, to)
             || (db.ads[id].status == to && forall other: AdStatus :: !Cause(db, request, now, id, other))
  {
    hide Cause, Perform;
    MovedHasCause(db, request, now, id);
    forall other: AdStatus | Cause(db, request, now, id, other)
      ensures Perform(db, request, now).db.ads[id].status == other
    {
      CauseMoves(db, request, now, id, other);
    }
  }

  // The mark of a cancellation is set by cancelling a live advertisement, and taken off when it is activated again,
  // when its last cycle ends and when it is cancelled for good after a failed payment; nothing else touches it.
  lemma MarkMovesAlong(db: Db, request: Request, now: int, id: Id)
    requires id in db.ads
    ensures id in Perform(db, request, now).db.ads
    ensures
      var ad, after, ok := db.ads[id], Perform(db, request, now).db.ads[id], Accepted(db, request, now);
      after.cancelAtCycleEnd
      <==> if ok && request.CancelAd? && request.id == id then ad.status == Live
           else
             && ad.cancelAtCycleEnd
             && !(ok && (request.RepublishAd? || request.RetryAd?) && request.id == id)
             && !(Approves(db, request, now, id) && ad.currentRevision.None? && Affordable(db, ad, now))
             && !(request == RenewAd(id) && ad.status == CancelledEnding && Ended(ad, now))
  {
    hide MonthlyPrice, Affordable, FirstCycleEnd, NextCycleEnd;
    RequestFollows(db, request, now, id);
  }

  // An administrator's pause of a live advertisement, lifted before the paid cycle ends, leaves no trace exactly if a
  // billing date was set or the advertisement was cancelled; otherwise its last cycle gains a billing date.
  lemma PauseIsUndone(db: Db, id: Id, clock: int, paused: int, resumed: int)
    requires id in db.ads && RowOk(db.ads[id], clock) && db.ads[id].status == Live
    requires resumed < db.ads[id].cycleEndsAt.value
    ensures
      var ad := db.ads[id];
      var after := Perform(Perform(db, PauseAd(id, true), paused).db, ResumeAd(id), resumed);
      && after.error.None?
      && (after.db == db <==> ad.nextBillingAt.Some? || ad.cancelAtCycleEnd)
      && after.db.ads[id] == ad.(nextBillingAt := after.db.ads[id].nextBillingAt)
      && after.db.ads[id].nextBillingAt == (if ad.cancelAtCycleEnd then None else ad.cycleEndsAt)
  {
    var ad := db.ads[id];
    var after := Perform(Perform(db, PauseAd(id, true), paused).db, ResumeAd(id), resumed).db;
    assert after == db.(ads := db.ads[id := after.ads[id]]);
    assert db.ads[id := ad] == db.ads;
  }

  /* Revisions. */

  // A revision changes status only by being decided, or by the approval of a later one of the same advertisement.
  lemma RevisionsAreDecided(db: Db, request: Request, now: int, r: Id)
    requires r in db.revisions
    ensures
      var after, row, ok := Perform(db, request, now).db, db.revisions[r], Accepted(db, request, now);
      && r in after.revisions
      && after.revisions[r].ad == row.ad && after.revisions[r].version == row.version
      && after.revisions[r].status
         == if ok && request == ApproveAd(r) then Approved
            else if ok && request.DenyAd? && request.revision == r then Refused
            else if Approves(db, request, now, row.ad) && row.status == Approved
                    && db.ads[row.ad].currentRevision.Some? && db.ads[row.ad].currentRevision.value != request.revision
            then Superseded
            else row.status
  {
    RequestTouches(db, request, now);
    hide Perform;
  }

  // The revision an accepted request submits waits for review, numbered behind those before it.
  lemma SubmissionWaits(db: Db, request: Request, now: int, r: Id)
    requires r !in db.revisions
    ensures r in Perform(db, request, now).db.revisions
        <==> Accepted(db, request, now) && (request.CreateAd? || request.UpdateAd?) && request.revision == r
    ensures r in Perform(db, request, now).db.revisions ==>
      Perform(db, request, now).db.revisions[r]
      == Revision(request.id, Submitted, if request.CreateAd? then 1 else |RevisionsOf(db, request.id)| + 1)
  {
    RequestTouches(db, request, now);
    hide Perform;
  }

  // A new advertisement comes from an accepted creation alone; it waits for review with that revision, and is neither
  // billed nor marked.
  lemma CreationWaits(db: Db, request: Request, now: int, id: Id)
    requires id !in db.ads
    ensures id in Perform(db, request, now).db.ads
        <==> Accepted(db, request, now) && request.CreateAd? && request.id == id
    ensures id in Perform(db, request, now).db.ads ==>
      var ad := Perform(db, request, now).db.ads[id];
      && ad.status == PendingReview && ad.owner == request.user && ad.currentRevision == None
      && ad.latestSubmittedRevision == Some(request.revision)
      && ad.nextBillingAt == None && ad.lastBilledAt == None && ad.remainingCycles == None && !ad.cancelAtCycleEnd
  {
    RequestTouches(db, request, now);
    hide Perform;
  }

  // Once decided a revision never waits again, and one that was refused or superseded stays so.
  lemma {:induction false} DecisionsAreFinal(db: Db, calls: seq<Call>, r: Id)
    requires r in db.revisions && db.revisions[r].status != Submitted
    ensures r in Run(db, calls).revisions
    ensures Run(db, calls).revisions[r].status == db.revisions[r].status
         || (db.revisions[r].status == Approved && Run(db, calls).revisions[r].status == Superseded)
    decreases |calls|
  {
    hide Perform;
    if calls != [] {
      DecidedIsNotDecided(db, calls[0].request, calls[0].at, r);
      RevisionsAreDecided(db, calls[0].request, calls[0].at, r);
      DecisionsAreFinal(Step(db, calls[0]), calls[1..], r);
    }
  }

  lemma DecidedIsNotDecided(db: Db, request: Request, now: int, r: Id)
    requires r in db.revisions && db.revisions[r].status != Submitted
    ensures Accepted(db, request, now) && (request.ApproveAd? || request.DenyAd?) ==> request.revision != r
  {
    hide Activate, ApprovedRevisions;
  }

  // The row names the revision last submitted or approved.
  lemma LatestIsNamed(db: Db, request: Request, now: int, id: Id)
    requires id in db.ads
    ensures id in Perform(db, request, now).db.ads
    ensures
      var after, ok := Perform(db, request, now).db, Accepted(db, request, now);
      after.ads[id].latestSubmittedRevision
      == if (ok && request.UpdateAd? && request.id == id) || Approves(db, request, now, id) then Some(request.revision)
         else db.ads[id].latestSubmittedRevision
  {
    hide MonthlyPrice, Affordable, FirstCycleEnd, NextCycleEnd;
    RequestFollows(db, request, now, id);
  }
}
