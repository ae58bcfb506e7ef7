/** What the row of an advertisement says of its past: who created it and at what price, what was last submitted, and
    the last paid cycle and boost, over whole runs. */
module AdHistory {
  import opened Wrappers
  import opened AdModel
  import opened AdLifecycle
  import opened AdInvariants
  import opened AdPrices
  import B = AdBoosts

  /* The row and the events. */

  // The cycle of the last successful monthly charge.
  function LastCycle(events: seq<BillingEvent>, id: Id): Option<Cycle> {
    if events == [] then None
    else
      var last := events[|events| - 1];
      if last.ad == id && last.succeeded && last.kind != Boost then Some(Cycle(last.startsAt, last.endsAt))
      else LastCycle(events[..|events| - 1], id)
  }

  // The end of the last boost sold.
  function LastBoostEnd(events: seq<BillingEvent>, id: Id): Option<int> {
    if events == [] then None
    else
      var last := events[|events| - 1];
      if last.ad == id && last.kind == Boost then Some(last.endsAt) else LastBoostEnd(events[..|events| - 1], id)
  }

  // The row's cycle is the one last paid for, and its boost ends when the last boost sold does.
  ghost predicate ShowsLastPayments(db: Db, id: Id)
    requires id in db.ads
  {
    var ad, cycle := db.ads[id], LastCycle(db.events, id);
    && ad.cycleStartedAt == (if cycle.Some? then Some(cycle.value.startsAt) else None)
    && ad.cycleEndsAt == (if cycle.Some? then Some(cycle.value.endsAt) else None)
    && ad.boostedUntil == LastBoostEnd(db.events, id)
  }

  lemma {:induction false} OneMorePayment(events: seq<BillingEvent>, added: seq<BillingEvent>, id: Id)
    requires |added| <= 1
    ensures LastCycle(events + added, id)
         == if added != [] && PaidCycle(added[0], id) then Some(Cycle(added[0].startsAt, added[0].endsAt))
            else LastCycle(events, id)
    ensures LastBoostEnd(events + added, id)
         == if added != [] && B.SoldBoost(added[0], id) then Some(added[0].endsAt) else LastBoostEnd(events, id)
  {
    if added == [] {
      assert events + added == events;
    } else {
      assert (events + added)[..|events|] == events;
    }
  }

  // Each move keeps the cycle or replaces it by the one it pays for.
  lemma MoveSetsCycle(ad: Ad, move: Move, now: int)
    ensures
      var moved, cycle := Moved(ad, move, now), PaidBy(ad, move, now);
      && moved.cycleStartedAt == (if cycle.Some? then Some(cycle.value.startsAt) else ad.cycleStartedAt)
      && moved.cycleEndsAt == (if cycle.Some? then Some(cycle.value.endsAt) else ad.cycleEndsAt)
  {
    hide FirstCycleEnd, NextCycleEnd;
  }

  lemma StepShowsLastPayments(db: Db, call: Call, id: Id)
    requires id in db.ads && ShowsLastPayments(db, id)
    ensures id in Step(db, call).ads && ShowsLastPayments(Step(db, call), id)
  {
    hide Perform, AddedEvents, MoveOf, Moved, LastCycle, LastBoostEnd;
    var move := MoveOf(db, call.request, call.at, id);
    RequestFollows(db, call.request, call.at, id);
    RequestBills(db, call.request, call.at, id);
    B.RequestBoosts(db, call.request, call.at, id);
    EventsAreAdded(db, call.request, call.at);
    OneMorePayment(db.events, AddedEvents(db, call.request, call.at), id);
    MoveSetsCycle(db.ads[id], move, call.at);
    B.MoveKeepsBoost(db.ads[id], move, call.at);
  }

  lemma OnlyBoostsBuy(db: Db, call: Call, id: Id)
    requires id in db.ads && !call.request.BoostAd?
    ensures !MoveOf(db, call.request, call.at, id).Buy?
  {
    hide Perform, ChargeEvent, RenewalIsPaid;
  }

  lemma MoveSetsMoments(ad: Ad, move: Move, now: int)
    ensures
      var moved, cycle := Moved(ad, move, now), PaidBy(ad, move, now);
      && moved.lastBilledAt == (if cycle.Some? then Some(now) else ad.lastBilledAt)
      && moved.lastBoostedAt == (if move.Buy? then Some(now) else ad.lastBoostedAt)
      && (cycle.Some? ==>
            && moved.status == Live
            && moved.nextBillingAt == if moved.remainingCycles == Some(0) then None else moved.cycleEndsAt)
  {
    hide FirstCycleEnd, NextCycleEnd;
  }

  // The moment of the last successful monthly charge, and what such a charge leaves: a live advertisement, billed next
  // when the cycle ends unless it was the last.
  lemma {:induction false} StepSetsMoments(db: Db, call: Call, id: Id)
    requires id in db.ads
    ensures id in Step(db, call).ads
    ensures
      var after := Step(db, call);
      var row, charged := after.ads[id], MonthlyCharges(after.events, id) > MonthlyCharges(db.events, id);
      && row.lastBilledAt == (if charged then Some(call.at) else db.ads[id].lastBilledAt)
      && (!call.request.BoostAd? ==> row.lastBoostedAt == db.ads[id].lastBoostedAt)
      && (charged ==>
            && row.status == Live
            && row.nextBillingAt == if row.remainingCycles == Some(0) then None else row.cycleEndsAt)
  {
    var move := MoveOf(db, call.request, call.at, id);
    hide Perform, AddedEvents, MoveOf, Moved, LastCycle, LastBoostEnd;
    RequestFollows(db, call.request, call.at, id);
    RequestCounts(db, call.request, call.at, id);
    if !call.request.BoostAd? {
      OnlyBoostsBuy(db, call, id);
    }
    MoveSetsMoments(db.ads[id], move, call.at);
  }

  lemma {:induction false} NoEventsNoPayments(events: seq<BillingEvent>, id: Id)
    requires forall i :: 0 <= i < |events| ==> events[i].ad != id
    ensures LastCycle(events, id).None? && LastBoostEnd(events, id).None?
  {
    if events != [] {
      NoEventsNoPayments(events[..|events| - 1], id);
    }
  }

  /* The row and its creation. */

  // Every event of the advertisement is charged to its owner, and a month at its own list price.
  ghost predicate ChargedAt(db: Db, id: Id, owner: Id, list: int) {
    forall i :: 0 <= i < |db.events| && db.events[i].ad == id ==>
      && db.events[i].user == owner
      && (db.events[i].kind != Boost ==>
            db.events[i].details.Monthly? && db.events[i].details.price.original == list)
  }

  // No request changes who owns an advertisement or what a month of it costs.
  lemma MoveKeepsTerms(ad: Ad, move: Move, now: int)
    ensures Moved(ad, move, now).owner == ad.owner
    ensures Moved(ad, move, now).monthlyDiamondPrice == ad.monthlyDiamondPrice
    ensures !move.Edit? ==>
      Moved(ad, move, now).currency == ad.currency && Moved(ad, move, now).requestedCycles == ad.requestedCycles
  {
    hide FirstCycleEnd, NextCycleEnd;
  }

  // The cycles a duration asks for: none below one, at most 120.
  function CyclesOf(duration: Option<int>): Option<int> {
    if duration.None? || duration.value < 1 then None else if duration.value > 120 then Some(120) else duration
  }

  // The content last submitted: what the advertisement was created with, or its last accepted edit.
  ghost function LastSubmitted(db: Db, calls: seq<Call>, id: Id, body: Body): Body
    decreases |calls|
  {
    if calls == [] then body else LastSubmitted(Step(db, calls[0]), calls[1..], id, SubmittedBy(db, calls[0], id, body))
  }

  function SubmittedBy(db: Db, call: Call, id: Id, body: Body): Body {
    var request := call.request;
    if request.UpdateAd? && request.id == id && Perform(db, request, call.at).error.None? then request.body else body
  }

  // All that the creation of an advertisement and its last edit fix: its owner, the list price under which it was
  // created, and the currency and number of cycles last asked for; and that the row shows its last payments.
  ghost predicate Keeps(db: Db, id: Id, owner: Id, monthlyPrice: int, body: Body) {
    && id in db.ads && db.ads[id].owner == owner && db.ads[id].monthlyDiamondPrice != 0
    && ListPrice(db.ads[id].monthlyDiamondPrice) == ListPrice(monthlyPrice)
    && db.ads[id].currency == body.currency && db.ads[id].requestedCycles == CyclesOf(body.requestedDuration)
    && ChargedAt(db, id, owner, ListPrice(monthlyPrice)) && ShowsLastPayments(db, id)
  }

  lemma CreationKeeps(db: Db, call: Call)
    requires EventsKnown(db) && call.request.CreateAd? && Perform(db, call.request, call.at).error.None?
    ensures var CreateAd(user, id, _, body) := call.request;
            Keeps(Step(db, call), id, user, db.settings.monthlyDiamondPrice, body)
  {
    var id := call.request.id;
    NewHasNoEvents(db, call, id);
    NewRows(db, call, id);
    NoEventsNoPayments(db.events, id);
    hide LastCycle, LastBoostEnd, Perform;
  }

  lemma EditSetsBody(db: Db, call: Call, id: Id, body: Body)
    requires id in db.ads
    requires db.ads[id].currency == body.currency && db.ads[id].requestedCycles == CyclesOf(body.requestedDuration)
    ensures
      var moved := Moved(db.ads[id], MoveOf(db, call.request, call.at, id), call.at);
      var submitted := SubmittedBy(db, call, id, body);
      moved.currency == submitted.currency && moved.requestedCycles == CyclesOf(submitted.requestedDuration)
  {
    hide Perform, ChargeEvent, BoostEvent, RenewalIsPaid;
    MoveKeepsTerms(db.ads[id], MoveOf(db, call.request, call.at, id), call.at);
  }

  lemma AddedIsCharged(db: Db, call: Call, id: Id, owner: Id, list: int)
    requires id in db.ads && db.ads[id].owner == owner && db.ads[id].monthlyDiamondPrice != 0
    requires ListPrice(db.ads[id].monthlyDiamondPrice) == list && ChargedAt(db, id, owner, list)
    ensures ChargedAt(Step(db, call), id, owner, list)
  {
    var added, after := AddedEvents(db, call.request, call.at), Step(db, call);
    EventsAreAdded(db, call.request, call.at);
    RequestBills(db, call.request, call.at, id);
    if added != [] && added[0].ad == id {
      if call.request.BoostAd? {
        BoostIsOwners(db, call, id);
      } else {
        EveryMonthIsCharged(db, call);
      }
    }
    hide Perform, AddedEvents, Takes;
    forall i | 0 <= i < |after.events| && after.events[i].ad == id
      ensures after.events[i].user == owner
      ensures after.events[i].kind != Boost ==>
                after.events[i].details.Monthly? && after.events[i].details.price.original == list
    {
      assert after.events[i] == if i < |db.events| then db.events[i] else added[0];
    }
  }

  lemma BoostIsOwners(db: Db, call: Call, id: Id)
    requires id in db.ads && call.request.BoostAd?
    ensures var added := AddedEvents(db, call.request, call.at);
            added != [] && added[0].ad == id ==> added[0].user == db.ads[id].owner && added[0].kind == Boost
  {
  }

  lemma StepKeeps(db: Db, call: Call, id: Id, owner: Id, monthlyPrice: int, body: Body)
    requires Keeps(db, id, owner, monthlyPrice, body)
    ensures Keeps(Step(db, call), id, owner, monthlyPrice, SubmittedBy(db, call, id, body))
  {
    hide Perform, MoveOf, Moved, ShowsLastPayments, ChargedAt, SubmittedBy, ListPrice, CyclesOf;
    StepShowsLastPayments(db, call, id);
    AddedIsCharged(db, call, id, owner, ListPrice(monthlyPrice));
    RequestFollows(db, call.request, call.at, id);
    MoveKeepsTerms(db.ads[id], MoveOf(db, call.request, call.at, id), call.at);
    EditSetsBody(db, call, id, body);
  }

  lemma {:induction false} RunKeeps(db: Db, calls: seq<Call>, id: Id, owner: Id, monthlyPrice: int, body: Body)
    requires Keeps(db, id, owner, monthlyPrice, body)
    ensures Keeps(Run(db, calls), id, owner, monthlyPrice, LastSubmitted(db, calls, id, body))
    decreases |calls|
  {
    hide Keeps, Step, SubmittedBy;
    if calls != [] {
      StepKeeps(db, calls[0], id, owner, monthlyPrice, body);
      RunKeeps(Step(db, calls[0]), calls[1..], id, owner, monthlyPrice, SubmittedBy(db, calls[0], id, body));
    }
  }

  // From its creation on, through any run and any change of the settings: every month is charged to the creator at the
  // list price of the day it was created, and the row shows what was last submitted and last paid.
  lemma {:induction false} CreatedKeepsItsTerms(db: Db, create: Call, calls: seq<Call>)
    requires EventsKnown(db) && create.request.CreateAd? && Perform(db, create.request, create.at).error.None?
    ensures
      var CreateAd(user, id, _, body) := create.request;
      var end, last := Run(Step(db, create), calls), LastSubmitted(Step(db, create), calls, id, body);
      && id in end.ads && end.ads[id].owner == user
      && (forall i :: 0 <= i < |end.events| && end.events[i].ad == id ==> end.events[i].user == user)
      && (forall i :: 0 <= i < |end.events| && end.events[i].ad == id && end.events[i].kind != Boost ==>
            && end.events[i].details.Monthly?
            && end.events[i].details.price.original == ListPrice(db.settings.monthlyDiamondPrice))
      && end.ads[id].currency == last.currency && end.ads[id].requestedCycles == CyclesOf(last.requestedDuration)
      && ShowsLastPayments(end, id)
  {
    hide Run, Step, LastSubmitted, ListPrice, CyclesOf, ShowsLastPayments, Perform;
    var CreateAd(user, id, _, body) := create.request;
    CreationKeeps(db, create);
    RunKeeps(Step(db, create), calls, id, user, db.settings.monthlyDiamondPrice, body);
  }

  // And each of those charges, at any point of any run: the owner's wallet loses the list price of the day of creation,
  // less the discount in force when the month begins, in coins at the rate in force, or nothing when it cannot pay.
  lemma {:induction false} CreatedPaysItsPrice(db: Db, create: Call, calls: seq<Call>, next: Call)
    requires EventsKnown(db) && create.request.CreateAd? && Perform(db, create.request, create.at).error.None?
    requires !next.request.BoostAd?
    requires var before := Run(Step(db, create), calls);
             |Step(before, next).events| > |before.events|
             && Step(before, next).events[|before.events|].ad == create.request.id
    ensures
      var before := Run(Step(db, create), calls);
      var after := Step(before, next);
      var event := after.events[|before.events|];
      && event.user == create.request.user
      && event.currency == LastSubmitted(Step(db, create), calls, create.request.id, create.request.body).currency
      && Costs(event, ListPrice(db.settings.monthlyDiamondPrice), before.settings) && Takes(before, event, after)
  {
    hide Run, Step, LastSubmitted, ListPrice, CyclesOf, ShowsLastPayments, Perform, ChargedAt, Costs, Takes;
    var CreateAd(user, id, _, body) := create.request;
    CreationKeeps(db, create);
    RunKeeps(Step(db, create), calls, id, user, db.settings.monthlyDiamondPrice, body);
    EveryMonthIsCharged(Run(Step(db, create), calls), next);
  }
}
