/** The renewal job at a fixed moment: repeating it leaves nothing due. */
module AdRenewals {
  import opened Calendar
  import opened MapSums
  import opened AdModel
  import opened AdLifecycle
  import opened AdInvariants
  import opened Wrappers

  ghost predicate RowsOk(db: Db, now: int) {
    forall id :: id in db.ads ==> RowOk(db.ads[id], now)
  }

  // How far an advertisement is from having nothing left to do now.
  function Rank(ad: Ad, now: int): nat {
    if ad.status == Live then
      (if Reached(ad.nextBillingAt, now) then now - ad.nextBillingAt.value + 2 else 1)
    else if ad.status == CancelledEnding then 1
    else 0
  }

  // The transaction for a due advertisement renews it to a later date or takes it out of billing.
  lemma DueMakesProgress(db: Db, id: Id, now: int)
    requires id in db.ads && RowOk(db.ads[id], now) && Due(db.ads[id], now)
    ensures
      var result := RenewAdvertisement(db, id, now);
      && result.effect != Untouched
      && result.db.ads == db.ads[id := result.db.ads[id]]
      && Rank(result.db.ads[id], now) < Rank(db.ads[id], now)
      && (result.effect == Renewed ==>
            && result.db.ads[id].status == Live
            && result.db.ads[id].cycleEndsAt.Some?
            && db.ads[id].cycleEndsAt.value < result.db.ads[id].cycleEndsAt.value)
      && (result.effect == Ended ==>
            result.db.ads[id].status == if db.ads[id].status == CancelledEnding then Inactive else Expired)
      && (result.effect == Failed ==> result.db.ads[id].status == PaymentFailed)
      && (result.effect != Renewed ==> result.db.ads[id].nextBillingAt == None)
  {
    var ad := db.ads[id];
    if ad.nextBillingAt.Some? {
      NextCycleIsLater(ad, now);
    }
    hide AddMonthsWithAnchor, GetUtcDate, NextCycleEnd, Charge;
  }

  // The query selects exactly the advertisements that their transaction then acts on.
  lemma SelectsWhatItActsOn(db: Db, id: Id, now: int)
    requires id in db.ads
    ensures RenewAdvertisement(db, id, now).effect != Untouched <==> id in DueIds(db, now)
  {
    hide Charge, NextCycleEnd;
  }

  lemma NextCycleIsLater(ad: Ad, now: int)
    requires RowOk(ad, now) && ad.nextBillingAt.Some?
    ensures ad.nextBillingAt.value < NextCycleEnd(ad)
  {
    AddMonthsAdvances(ad.nextBillingAt.value, 1, ad.anchorDay.value);
  }

  /* One call of the job. */

  ghost function DueIds(db: Db, now: int): set<Id> {
    set id | id in db.ads && Due(db.ads[id], now)
  }

  // The rows a call selects: different due ones, as many as the limit allows, in any order.
  ghost predicate Selects(db: Db, now: int, limit: nat, ids: seq<Id>) {
    && (forall i, j :: 0 <= i < j < |ids| ==> ids[i] != ids[j])
    && (forall i :: 0 <= i < |ids| ==> ids[i] in DueIds(db, now))
    && |ids| == (if |DueIds(db, now)| < limit then |DueIds(db, now)| else limit)
  }

  // The order of the query: by billing date, rows without one last, and what is left out comes no earlier.
  ghost predicate EarliestFirst(db: Db, now: int, ids: seq<Id>) {
    && (forall i :: 0 <= i < |ids| ==> ids[i] in db.ads)
    && (forall i, j :: 0 <= i < j < |ids| && db.ads[ids[j]].nextBillingAt.Some? ==>
          && db.ads[ids[i]].nextBillingAt.Some?
          && db.ads[ids[i]].nextBillingAt.value <= db.ads[ids[j]].nextBillingAt.value)
    && (forall id, i :: id in DueIds(db, now) && id !in ids && 0 <= i < |ids| && db.ads[id].nextBillingAt.Some? ==>
          && db.ads[ids[i]].nextBillingAt.Some?
          && db.ads[ids[i]].nextBillingAt.value <= db.ads[id].nextBillingAt.value)
  }

  // What sorting by that date compares.
  predicate BilledBefore(a: Ad, b: Ad) {
    a.nextBillingAt.Some? && (b.nextBillingAt.None? || a.nextBillingAt.value < b.nextBillingAt.value)
  }

  lemma {:induction false} SomeEarliest(ads: map<Id, Ad>, ids: set<Id>) returns (first: Id)
    requires ids != {} && ids <= ads.Keys
    ensures first in ids && forall id :: id in ids ==> !BilledBefore(ads[id], ads[first])
    decreases ids
  {
    var any :| any in ids;
    if id :| id in ids && BilledBefore(ads[id], ads[any]) {
      assert id in ids - {any};
      first := SomeEarliest(ads, ids - {any});
    } else {
      first := any;
    }
  }

  // The first rows of some due ones, in the order of the query, and the rest.
  ghost predicate Picked(ads: map<Id, Ad>, due: set<Id>, ids: seq<Id>, rest: set<Id>) {
    && due <= ads.Keys && rest <= due && |ids| + |rest| == |due|
    && (forall i, j :: 0 <= i < j < |ids| ==> ids[i] != ids[j])
    && (forall i :: 0 <= i < |ids| ==> ids[i] in due && ids[i] !in rest)
    && (forall id :: id in due ==> id in ids || id in rest)
    && (forall i, j :: 0 <= i < j < |ids| ==> !BilledBefore(ads[ids[j]], ads[ids[i]]))
    && (forall id, i :: id in rest && 0 <= i < |ids| ==> !BilledBefore(ads[id], ads[ids[i]]))
  }

  lemma PickNext(ads: map<Id, Ad>, due: set<Id>, ids: seq<Id>, rest: set<Id>, next: Id)
    requires Picked(ads, due, ids, rest) && next in rest
    requires forall id :: id in rest ==> !BilledBefore(ads[id], ads[next])
    ensures Picked(ads, due, ids + [next], rest - {next})
  {
    hide BilledBefore;
    var picked := ids + [next];
    assert forall i :: 0 <= i < |picked| ==> picked[i] == if i < |ids| then ids[i] else next;
  }

  lemma PickedIsSelected(db: Db, now: int, limit: nat, ids: seq<Id>, rest: set<Id>)
    requires Picked(db.ads, DueIds(db, now), ids, rest) && |ids| <= limit && (rest == {} || |ids| == limit)
    ensures Selects(db, now, limit, ids) && EarliestFirst(db, now, ids)
  {
    hide Due;
  }

  function RenewAll(db: Db, ids: seq<Id>, now: int): Db
    decreases |ids|
  {
    if ids == [] then db else RenewAll(RenewAdvertisement(db, ids[0], now).db, ids[1..], now)
  }

  function Ranks(db: Db, now: int): map<Id, int> {
    map id | id in db.ads :: Rank(db.ads[id], now)
  }

  ghost function Remaining(db: Db, now: int): int {
    Total(Ranks(db, now))
  }

  lemma RenewalKeepsRow(db: Db, id: Id, now: int)
    requires id in db.ads && RowOk(db.ads[id], now)
    ensures id in RenewAdvertisement(db, id, now).db.ads && RowOk(RenewAdvertisement(db, id, now).db.ads[id], now)
  {
    hide RenewAdvertisement, RowOk;
    RequestFollows(db, RenewAd(id), now, id);
    StepKeepsRow(db, Call(RenewAd(id), now), now, id);
  }

  lemma OneRenewalProgresses(db: Db, id: Id, now: int)
    requires RowsOk(db, now) && id in DueIds(db, now)
    ensures
      var after := RenewAdvertisement(db, id, now).db;
      && RowsOk(after, now) && after.ads.Keys == db.ads.Keys
      && (forall other :: other in db.ads && other != id ==> after.ads[other] == db.ads[other])
      && Remaining(after, now) < Remaining(db, now)
  {
    hide RenewAdvertisement, Rank, Due, RowOk;
    var after := RenewAdvertisement(db, id, now).db;
    DueMakesProgress(db, id, now);
    RenewalKeepsRow(db, id, now);
    assert Ranks(after, now) == Ranks(db, now)[id := Rank(after.ads[id], now)];
    TotalUpdate(Ranks(db, now), id, Rank(after.ads[id], now));
  }

  lemma {:induction false} CallProgresses(db: Db, ids: seq<Id>, now: int)
    requires RowsOk(db, now)
    requires forall i, j :: 0 <= i < j < |ids| ==> ids[i] != ids[j]
    requires forall i :: 0 <= i < |ids| ==> ids[i] in DueIds(db, now)
    ensures RowsOk(RenewAll(db, ids, now), now)
    ensures Remaining(RenewAll(db, ids, now), now) + |ids| <= Remaining(db, now)
    decreases |ids|
  {
    hide RenewAdvertisement, Due, RowOk, Rank;
    if ids != [] {
      OneRenewalProgresses(db, ids[0], now);
      CallProgresses(RenewAdvertisement(db, ids[0], now).db, ids[1..], now);
    }
  }

  /* Calls one after another. */

  function AfterCalls(db: Db, batches: seq<seq<Id>>, now: int): Db
    decreases |batches|
  {
    if batches == [] then db else AfterCalls(RenewAll(db, batches[0], now), batches[1..], now)
  }

  ghost predicate SelectedByCalls(db: Db, now: int, limit: nat, batches: seq<seq<Id>>)
    decreases |batches|
  {
    batches != [] ==>
      Selects(db, now, limit, batches[0]) && SelectedByCalls(RenewAll(db, batches[0], now), now, limit, batches[1..])
  }

  lemma {:induction false} NothingDueStays(db: Db, now: int, limit: nat, batches: seq<seq<Id>>)
    requires DueIds(db, now) == {} && SelectedByCalls(db, now, limit, batches)
    ensures AfterCalls(db, batches, now) == db
    decreases |batches|
  {
    if batches != [] {
      assert batches[0] == [];
      NothingDueStays(db, now, limit, batches[1..]);
    }
  }

  // With a limit of at least one, calling the job again and again at the same moment ends, after at most as many calls
  // as the measure counts, with nothing due: no cancelled advertisement has reached the end of its cycle, no live one
  // its billing date, and no live one without cycles left the end of its last.
  lemma {:induction false} CallsDrainTheQueue(db: Db, now: int, limit: nat, batches: seq<seq<Id>>)
    requires RowsOk(db, now) && limit >= 1 && SelectedByCalls(db, now, limit, batches)
    requires |batches| >= Remaining(db, now)
    ensures
      var end := AfterCalls(db, batches, now);
      && DueIds(end, now) == {}
      && forall id :: id in end.ads ==>
        var ad := end.ads[id];
        && (ad.status == CancelledEnding && ad.cycleEndsAt.Some? ==> now < ad.cycleEndsAt.value)
        && (ad.status == Live && ad.nextBillingAt.Some? ==> now < ad.nextBillingAt.value)
        && (ad.status == Live && ad.remainingCycles == Some(0) && ad.cycleEndsAt.Some? ==> now < ad.cycleEndsAt.value)
    decreases |batches|
  {
    RemainingIsNatural(db, now);
    if DueIds(db, now) == {} {
      NothingDueStays(db, now, limit, batches);
      NothingDueSays(db, now);
    } else {
      NothingRemainingNothingDue(db, now);
      assert |DueIds(db, now)| > 0;
      CallProgresses(db, batches[0], now);
      CallsDrainTheQueue(RenewAll(db, batches[0], now), now, limit, batches[1..]);
    }
  }

  lemma NothingDueSays(db: Db, now: int)
    requires DueIds(db, now) == {}
    ensures forall id :: id in db.ads ==>
        var ad := db.ads[id];
        && (ad.status == CancelledEnding && ad.cycleEndsAt.Some? ==> now < ad.cycleEndsAt.value)
        && (ad.status == Live && ad.nextBillingAt.Some? ==> now < ad.nextBillingAt.value)
        && (ad.status == Live && ad.remainingCycles == Some(0) && ad.cycleEndsAt.Some? ==> now < ad.cycleEndsAt.value)
  {
    forall id | id in db.ads ensures !Due(db.ads[id], now) {
      assert id !in DueIds(db, now);
    }
  }

  lemma RemainingIsNatural(db: Db, now: int)
    ensures Remaining(db, now) >= 0
  {
    TotalIsNatural(Ranks(db, now));
  }

  lemma NothingRemainingNothingDue(db: Db, now: int)
    requires DueIds(db, now) != {}
    ensures Remaining(db, now) > 0
  {
    TotalIsNatural(Ranks(db, now));
    var id :| id in DueIds(db, now);
    assert Ranks(db, now)[id] > 0;
  }
}
