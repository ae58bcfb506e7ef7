/** What every reachable advertisement satisfies, whatever mix of owners, administrators and renewal runs
    drives it. */
module AdInvariants {
  import opened Wrappers
  import opened AdModel
  import opened AdLifecycle

  // No paid cycle is still running.
  predicate Elapsed(ad: Ad, clock: int) {
    ad.cycleEndsAt.Some? ==> ad.cycleEndsAt.value <= clock
  }

  predicate RowOk(ad: Ad, clock: int) {
    && (ad.nextBillingAt.Some? ==> ad.status == Live && ad.nextBillingAt == ad.cycleEndsAt)
    && (ad.status == Live && !ad.cancelAtCycleEnd && ad.remainingCycles != Some(0) ==> ad.nextBillingAt.Some?)
    && (ad.cancelAtCycleEnd ==> ad.nextBillingAt.None?)
    && (ad.status == CancelledEnding ==> ad.cancelAtCycleEnd)
    && (ad.status in {Live, CancelledEnding} ==> ad.currentRevision.Some? && ad.cycleEndsAt.Some?)
    && (ad.status in {PendingReview, Denied} ==> ad.currentRevision.None?)
    && (ad.status in {Inactive, Expired, PaymentFailed} ==> ad.currentRevision.Some? && Elapsed(ad, clock))
    && (ad.cycleEndsAt.Some? ==> ad.currentRevision.Some? && ad.anchorDay.Some? && ad.anchorDay.value >= 1)
    && (ad.requestedCycles.Some? ==> ad.requestedCycles.value >= 1)
    && (ad.remainingCycles.Some? ==> ad.remainingCycles.value >= 0)
  }

  lemma OwnerMoveKeepsRow(ad: Ad, move: Move, clock: int, now: int)
    requires RowOk(ad, clock) && CanMove(ad, move, now) && clock <= now
    requires move.Stay? || move.Edit? || move.Cancel? || move.Buy?
    ensures RowOk(Moved(ad, move, now), now)
  {
  }

  lemma AdminMoveKeepsRow(ad: Ad, move: Move, clock: int, now: int)
    requires RowOk(ad, clock) && CanMove(ad, move, now) && clock <= now
    requires move.Deny? || move.Pause? || move.Resume?
    ensures RowOk(Moved(ad, move, now), now)
  {
  }

  lemma ActivationKeepsRow(ad: Ad, move: Move, clock: int, now: int)
    requires RowOk(ad, clock) && CanMove(ad, move, now) && clock <= now
    requires move.Approve? || move.Reactivate?
    ensures RowOk(Moved(ad, move, now), now)
  {
    hide FirstCycleEnd;
  }

  lemma RenewalMoveKeepsRow(ad: Ad, move: Move, clock: int, now: int)
    requires RowOk(ad, clock) && clock <= now && move.Renew?
    ensures RowOk(Moved(ad, move, now), now)
  {
    hide NextCycleEnd;
  }

  lemma MoveKeepsRow(ad: Ad, move: Move, clock: int, now: int)
    requires RowOk(ad, clock) && CanMove(ad, move, now) && clock <= now
    ensures RowOk(Moved(ad, move, now), now)
  {
    hide RowOk, Moved, CanMove;
    match move
    case Stay => OwnerMoveKeepsRow(ad, move, clock, now);
    case Edit(_, _, _) => OwnerMoveKeepsRow(ad, move, clock, now);
    case Approve(_, _) => ActivationKeepsRow(ad, move, clock, now);
    case Deny => AdminMoveKeepsRow(ad, move, clock, now);
    case Pause => AdminMoveKeepsRow(ad, move, clock, now);
    case Resume => AdminMoveKeepsRow(ad, move, clock, now);
    case Cancel => OwnerMoveKeepsRow(ad, move, clock, now);
    case Buy(_) => OwnerMoveKeepsRow(ad, move, clock, now);
    case Reactivate => ActivationKeepsRow(ad, move, clock, now);
    case Renew(_) => RenewalMoveKeepsRow(ad, move, clock, now);
  }

  // The only advertisement a request can add is a new one waiting for review.
  lemma StepKeepsRow(db: Db, call: Call, clock: int, id: Id)
    requires clock <= call.at && id in Step(db, call).ads
    requires id in db.ads ==> RowOk(db.ads[id], clock)
    ensures RowOk(Step(db, call).ads[id], call.at)
  {
    if id in db.ads {
      RequestFollows(db, call.request, call.at, id);
      MoveKeepsRow(db.ads[id], MoveOf(db, call.request, call.at, id), clock, call.at);
    } else {
      NewRows(db, call, id);
    }
  }

  lemma NewRows(db: Db, call: Call, id: Id)
    requires id !in db.ads && id in Step(db, call).ads
    ensures call.request.CreateAd? && call.request.id == id
    ensures Step(db, call).ads[id] == NewAd(call.request.user, call.request.revision, call.request.body, db.settings)
  {
    RequestTouches(db, call.request, call.at);
  }

  /* Events. */

  // Every billing event is one of an existing advertisement.
  ghost predicate EventsKnown(db: Db) {
    forall i :: 0 <= i < |db.events| ==> db.events[i].ad in db.ads
  }

  lemma StepKeepsEventsKnown(db: Db, call: Call)
    requires EventsKnown(db)
    ensures EventsKnown(Step(db, call))
  {
    var added := AddedEvents(db, call.request, call.at);
    EventsAreAdded(db, call.request, call.at);
    AddedIsKnown(db, call.request, call.at);
    hide AddedEvents, Perform;
    var after := Step(db, call);
    forall i | 0 <= i < |after.events| ensures after.events[i].ad in after.ads {
      var id := after.events[i].ad;
      if i < |db.events| {
        assert id == db.events[i].ad;
      } else {
        assert after.events[i] == added[i - |db.events|];
      }
      RequestFollows(db, call.request, call.at, id);
    }
  }

  lemma AddedIsKnown(db: Db, request: Request, now: int)
    ensures forall i :: 0 <= i < |AddedEvents(db, request, now)| ==> AddedEvents(db, request, now)[i].ad in db.ads
  {
    hide CalculatePromoPrice, FirstCycleEnd, NextCycleEnd;
  }

  // A new advertisement has no billing events.
  lemma NewHasNoEvents(db: Db, call: Call, id: Id)
    requires EventsKnown(db) && id !in db.ads && id in Step(db, call).ads
    ensures Step(db, call).events == db.events
    ensures forall i :: 0 <= i < |db.events| ==> db.events[i].ad != id
  {
    NewRows(db, call, id);
    EventsAreAdded(db, call.request, call.at);
    assert AddedEvents(db, call.request, call.at) == [];
  }

  /* Revisions. */

  // The current revision is the only approved one, at most one revision waits for review, and the versions
  // are 1 to n, each used once.
  ghost predicate RevisionsOk(db: Db, id: Id)
    requires id in db.ads
  {
    var mine := RevisionsOf(db, id);
    && (forall r :: r in mine ==> (db.revisions[r].status == Approved <==> db.ads[id].currentRevision == Some(r)))
    && (db.ads[id].currentRevision.Some? ==> db.ads[id].currentRevision.value in mine)
    && (forall r, s :: r in mine && s in mine && db.revisions[r].status == Submitted == db.revisions[s].status ==>
          r == s)
    && (forall r :: r in mine ==> 1 <= db.revisions[r].version <= |mine|)
    && (forall r, s :: r in mine && s in mine && db.revisions[r].version == db.revisions[s].version ==> r == s)
    && (forall v :: 1 <= v <= |mine| ==> VersionUsed(db, mine, v))
  }

  ghost predicate VersionUsed(db: Db, mine: set<Id>, version: int)
    requires mine <= db.revisions.Keys
  {
    exists r :: r in mine && db.revisions[r].version == version
  }

  ghost predicate Consistent(db: Db, clock: int) {
    && (forall id :: id in db.ads ==> RowOk(db.ads[id], clock) && RevisionsOk(db, id))
    && (forall r :: r in db.revisions ==> db.revisions[r].ad in db.ads)
  }

  // The revisions after a request are the ones before it, up to one new row or a change of statuses.
  lemma SameRevisions(db: Db, after: Db, id: Id)
    requires id in db.ads && id in after.ads && RevisionsOk(db, id)
    requires after.revisions == db.revisions && after.ads[id].currentRevision == db.ads[id].currentRevision
    ensures RevisionsOk(after, id)
  {
    assert RevisionsOf(after, id) == RevisionsOf(db, id);
    forall v | 1 <= v <= |RevisionsOf(after, id)|
      ensures VersionUsed(after, RevisionsOf(after, id), v)
    {
      assert VersionUsed(db, RevisionsOf(db, id), v);
    }
  }

  lemma NewRevision(db: Db, after: Db, id: Id, revision: Id)
    requires id in db.ads && id in after.ads && RevisionsOk(db, id)
    requires revision !in db.revisions && !HasPendingRevision(db, id)
    requires after.revisions == db.revisions[revision := Revision(id, Submitted, |RevisionsOf(db, id)| + 1)]
    requires after.ads[id].currentRevision == db.ads[id].currentRevision
    ensures RevisionsOk(after, id)
  {
    var mine := RevisionsOf(db, id);
    assert RevisionsOf(after, id) == mine + {revision};
    forall v | 1 <= v <= |RevisionsOf(after, id)|
      ensures VersionUsed(after, RevisionsOf(after, id), v)
    {
      if v <= |mine| {
        assert VersionUsed(db, mine, v);
        var r :| r in mine && db.revisions[r].version == v;
        assert r in RevisionsOf(after, id) && after.revisions[r].version == v;
      } else {
        assert revision in RevisionsOf(after, id) && after.revisions[revision].version == v;
      }
    }
  }

  // Changing statuses keeps the versions.
  lemma SameVersions(db: Db, after: Db, id: Id)
    requires id in db.ads && id in after.ads && RevisionsOk(db, id)
    requires after.revisions.Keys == db.revisions.Keys
    requires forall r :: r in db.revisions ==>
      after.revisions[r].ad == db.revisions[r].ad && after.revisions[r].version == db.revisions[r].version
    ensures RevisionsOf(after, id) == RevisionsOf(db, id)
    ensures forall v :: 1 <= v <= |RevisionsOf(after, id)| ==> VersionUsed(after, RevisionsOf(after, id), v)
  {
    assert RevisionsOf(after, id) == RevisionsOf(db, id);
    forall v | 1 <= v <= |RevisionsOf(after, id)|
      ensures VersionUsed(after, RevisionsOf(after, id), v)
    {
      assert VersionUsed(db, RevisionsOf(db, id), v);
      var r :| r in RevisionsOf(db, id) && db.revisions[r].version == v;
      assert r in RevisionsOf(after, id) && after.revisions[r].version == v;
    }
  }

  lemma ApprovalKeepsRevisions(db: Db, revision: Id, after: Db, id: Id)
    requires revision in db.revisions && db.revisions[revision].status == Submitted
    requires db.revisions[revision].ad in db.ads
    requires id in db.ads && id in after.ads && RevisionsOk(db, id)
    requires after.revisions == ApprovedRevisions(db, revision)
    requires after.ads[id].currentRevision ==
      if id == db.revisions[revision].ad then Some(revision) else db.ads[id].currentRevision
    ensures RevisionsOk(after, id)
  {
    SameVersions(db, after, id);
  }

  lemma DenialKeepsRevisions(db: Db, revision: Id, after: Db, id: Id)
    requires revision in db.revisions && db.revisions[revision].status == Submitted
    requires id in db.ads && id in after.ads && RevisionsOk(db, id)
    requires after.revisions == db.revisions[revision := db.revisions[revision].(status := Refused)]
    requires after.ads[id].currentRevision == db.ads[id].currentRevision
    ensures RevisionsOk(after, id)
  {
    SameVersions(db, after, id);
  }

  // A revision of another advertisement.
  lemma OtherRevisions(db: Db, after: Db, id: Id, other: Id, revision: Id)
    requires id in db.ads && id in after.ads && RevisionsOk(db, id)
    requires id != other && revision !in db.revisions && revision in after.revisions
    requires after.revisions == db.revisions[revision := after.revisions[revision]]
    requires after.revisions[revision].ad == other
    requires after.ads[id].currentRevision == db.ads[id].currentRevision
    ensures RevisionsOk(after, id)
  {
    var mine := RevisionsOf(db, id);
    assert RevisionsOf(after, id) == mine;
    forall v | 1 <= v <= |mine|
      ensures VersionUsed(after, mine, v)
    {
      assert VersionUsed(db, mine, v);
    }
  }

  // What a request does to the revisions and to the set of advertisements.
  ghost predicate Touches(db: Db, request: Request, ok: bool, after: Db) {
    match request
    case CreateAd(user, id, revision, body) =>
      if ok then
        && id !in db.ads && revision !in db.revisions
        && after.ads == db.ads[id := NewAd(user, revision, body, db.settings)]
        && after.revisions == db.revisions[revision := Revision(id, Submitted, 1)]
      else after == db
    case UpdateAd(_, id, revision, _) =>
      && after.ads.Keys == db.ads.Keys
      && if ok then
           && id in db.ads && revision !in db.revisions && !HasPendingRevision(db, id)
           && after.revisions == db.revisions[revision := Revision(id, Submitted, |RevisionsOf(db, id)| + 1)]
         else after.revisions == db.revisions
    case ApproveAd(revision) =>
      && after.ads.Keys == db.ads.Keys
      && if ok then
           && revision in db.revisions && db.revisions[revision].status == Submitted
           && db.revisions[revision].ad in db.ads
           && after.revisions == ApprovedRevisions(db, revision)
         else after.revisions == db.revisions
    case DenyAd(revision, _) =>
      && after.ads.Keys == db.ads.Keys
      && if ok then
           && revision in db.revisions && db.revisions[revision].status == Submitted
           && after.revisions == db.revisions[revision := db.revisions[revision].(status := Refused)]
         else after.revisions == db.revisions
    case _ => after.ads.Keys == db.ads.Keys && after.revisions == db.revisions
  }

  // Only an approval changes an advertisement's current revision, to the approved one.
  ghost predicate KeepsCurrent(db: Db, request: Request, ok: bool, after: Db) {
    forall id :: id in db.ads ==> id in after.ads && after.ads[id].currentRevision == CurrentAfter(db, request, ok, id)
  }

  function CurrentAfter(db: Db, request: Request, ok: bool, id: Id): Option<Id>
    requires id in db.ads
  {
    if ok && request.ApproveAd? && request.revision in db.revisions && db.revisions[request.revision].ad == id then
      Some(request.revision)
    else db.ads[id].currentRevision
  }

  lemma RequestKeepsCurrent(db: Db, request: Request, now: int)
    ensures KeepsCurrent(db, request, Perform(db, request, now).error.None?, Perform(db, request, now).db)
  {
    forall id | id in db.ads
      ensures id in Perform(db, request, now).db.ads
      ensures Perform(db, request, now).db.ads[id].currentRevision ==
              CurrentAfter(db, request, Perform(db, request, now).error.None?, id)
    {
      RequestFollows(db, request, now, id);
    }
  }

  lemma ActivationTouches(db: Db, request: Request, now: int)
    requires request.ApproveAd? || request.RepublishAd? || request.RetryAd?
    ensures Touches(db, request, Perform(db, request, now).error.None?, Perform(db, request, now).db)
  {
  }

  lemma SubmissionTouches(db: Db, request: Request, now: int)
    requires request.CreateAd? || request.UpdateAd?
    ensures Touches(db, request, Perform(db, request, now).error.None?, Perform(db, request, now).db)
  {
    hide BodyError, RequestedCycles, OrElse;
  }

  lemma RequestTouches(db: Db, request: Request, now: int)
    ensures Touches(db, request, Perform(db, request, now).error.None?, Perform(db, request, now).db)
  {
    match request
    case CreateAd(_, _, _, _) => SubmissionTouches(db, request, now);
    case UpdateAd(_, _, _, _) => SubmissionTouches(db, request, now);
    case ApproveAd(_) => ActivationTouches(db, request, now);
    case RepublishAd(_, _) => ActivationTouches(db, request, now);
    case RetryAd(_, _) => ActivationTouches(db, request, now);
    case _ =>
  }

  lemma FirstRevision(db: Db, after: Db, id: Id, revision: Id)
    requires id in after.ads && after.ads[id].currentRevision.None?
    requires forall r :: r in db.revisions ==> db.revisions[r].ad != id
    requires after.revisions == db.revisions[revision := Revision(id, Submitted, 1)]
    ensures RevisionsOk(after, id)
  {
    assert RevisionsOf(after, id) == {revision};
    assert after.revisions[revision].version == 1;
    assert VersionUsed(after, RevisionsOf(after, id), 1);
  }

  lemma RevisionsStayOk(db: Db, request: Request, ok: bool, after: Db, id: Id)
    requires id in after.ads && (id in db.ads ==> RevisionsOk(db, id))
    requires forall r :: r in db.revisions ==> db.revisions[r].ad in db.ads
    requires Touches(db, request, ok, after) && KeepsCurrent(db, request, ok, after)
    ensures RevisionsOk(after, id)
  {
    match request
    case CreateAd(_, newId, revision, _) =>
      if id !in db.ads {
        FirstRevision(db, after, id, revision);
      } else if ok {
        OtherRevisions(db, after, id, newId, revision);
      } else {
        SameRevisions(db, after, id);
      }
    case UpdateAd(_, target, revision, _) =>
      if ok && id == target {
        NewRevision(db, after, id, revision);
      } else if ok {
        OtherRevisions(db, after, id, target, revision);
      } else {
        SameRevisions(db, after, id);
      }
    case ApproveAd(revision) =>
      if ok {
        ApprovalKeepsRevisions(db, revision, after, id);
      } else {
        SameRevisions(db, after, id);
      }
    case DenyAd(revision, _) =>
      if ok {
        DenialKeepsRevisions(db, revision, after, id);
      } else {
        SameRevisions(db, after, id);
      }
    case _ => SameRevisions(db, after, id);
  }

  lemma TouchedStaysConsistent(db: Db, request: Request, ok: bool, after: Db, clock: int, now: int)
    requires Consistent(db, clock) && Touches(db, request, ok, after) && KeepsCurrent(db, request, ok, after)
    requires forall id :: id in after.ads ==> RowOk(after.ads[id], now)
    ensures Consistent(after, now)
  {
    hide *;
    ConsistentSays(db, clock);
    RevisionsKeepAds(db, request, ok, after);
    forall id | id in after.ads
      ensures RevisionsOk(after, id)
    {
      RevisionsStayOk(db, request, ok, after, id);
    }
    ConsistentWhen(after, now);
  }

  lemma ConsistentSays(db: Db, clock: int)
    requires Consistent(db, clock)
    ensures forall id :: id in db.ads ==> RevisionsOk(db, id)
    ensures forall r :: r in db.revisions ==> db.revisions[r].ad in db.ads
  {
    hide RevisionsOk, RowOk;
  }

  lemma ConsistentWhen(db: Db, clock: int)
    requires forall id :: id in db.ads ==> RowOk(db.ads[id], clock)
    requires forall id :: id in db.ads ==> RevisionsOk(db, id)
    requires forall r :: r in db.revisions ==> db.revisions[r].ad in db.ads
    ensures Consistent(db, clock)
  {
    hide RevisionsOk, RowOk;
  }

  lemma RevisionsKeepAds(db: Db, request: Request, ok: bool, after: Db)
    requires Touches(db, request, ok, after)
    requires forall r :: r in db.revisions ==> db.revisions[r].ad in db.ads
    ensures forall r :: r in after.revisions ==> after.revisions[r].ad in after.ads
  {
  }

  lemma StepKeepsConsistent(db: Db, call: Call, clock: int)
    requires Consistent(db, clock) && clock <= call.at
    ensures Consistent(Step(db, call), call.at)
  {
    var outcome := Perform(db, call.request, call.at);
    RequestTouches(db, call.request, call.at);
    RequestKeepsCurrent(db, call.request, call.at);
    forall id | id in outcome.db.ads
      ensures RowOk(outcome.db.ads[id], call.at)
    {
      StepKeepsRow(db, call, clock, id);
    }
    TouchedStaysConsistent(db, call.request, outcome.error.None?, outcome.db, clock, call.at);
  }

  // Every run keeps every advertisement consistent.
  lemma {:induction false} RunKeepsConsistent(db: Db, clock: int, calls: seq<Call>)
    requires Consistent(db, clock) && InOrder(clock, calls)
    ensures Consistent(Run(db, calls), ClockAfter(clock, calls))
    decreases |calls|
  {
    if calls != [] {
      StepKeepsConsistent(db, calls[0], clock);
      RunKeepsConsistent(Step(db, calls[0]), calls[0].at, calls[1..]);
    }
  }

  lemma EmptyIsConsistent(settings: Settings, clock: int)
    ensures Consistent(EmptyDb(settings), clock)
  {
  }
}
