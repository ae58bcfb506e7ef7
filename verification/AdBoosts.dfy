/** Boost windows sold over whole runs. */
module AdBoosts {
  import opened Wrappers
  import opened Calendar
  import opened AdModel
  import opened AdLifecycle
  import opened AdInvariants

  predicate SoldBoost(event: BillingEvent, id: Id) {
    event.ad == id && event.kind == Boost
  }

  // The windows sold for an advertisement do not overlap, each is as long as it was paid for, and the row knows
  // an instant no window reaches past.
  ghost predicate BoostsDisjoint(db: Db, id: Id)
    requires id in db.ads
  {
    && (forall i :: 0 <= i < |db.events| && SoldBoost(db.events[i], id) ==>
          && db.events[i].details.BoostWindow?
          && db.events[i].details.hours >= 1
          && db.events[i].endsAt == db.events[i].details.startsAt + db.events[i].details.hours * MS_PER_HOUR
          && db.ads[id].boostedUntil.Some? && db.events[i].endsAt <= db.ads[id].boostedUntil.value)
    && (forall i, j :: 0 <= i < j < |db.events| && SoldBoost(db.events[i], id) && SoldBoost(db.events[j], id) ==>
          db.events[j].details.BoostWindow? && db.events[i].endsAt <= db.events[j].details.startsAt)
  }

  predicate NotEarlier(before: Option<int>, after: Option<int>) {
    before.Some? ==> after.Some? && before.value <= after.value
  }

  // What a request means for the boosts of one advertisement.
  ghost predicate Boosts(db: Db, request: Request, now: int, id: Id)
    requires id in db.ads
  {
    var added, move := AddedEvents(db, request, now), MoveOf(db, request, now, id);
    && |added| <= 1
    && (added != [] && SoldBoost(added[0], id) <==> move.Buy?)
    && (move.Buy? ==>
          && added[0].details.BoostWindow? && added[0].details.hours >= 1
          && added[0].details.startsAt == BoostStart(db.ads[id], now)
          && added[0].endsAt == added[0].details.startsAt + added[0].details.hours * MS_PER_HOUR
          && move.boostedUntil == added[0].endsAt)
  }

  lemma RequestBoosts(db: Db, request: Request, now: int, id: Id)
    requires id in db.ads
    ensures Boosts(db, request, now, id)
  {
  }

  lemma MoveKeepsBoost(ad: Ad, move: Move, now: int)
    ensures Moved(ad, move, now).boostedUntil == if move.Buy? then Some(move.boostedUntil) else ad.boostedUntil
  {
  }

  // A boost bought early starts when the last one ends, so no paid time is lost.
  lemma StepKeepsBoostsDisjoint(db: Db, call: Call, id: Id)
    requires id in db.ads && BoostsDisjoint(db, id)
    ensures id in Step(db, call).ads && BoostsDisjoint(Step(db, call), id)
    ensures NotEarlier(db.ads[id].boostedUntil, Step(db, call).ads[id].boostedUntil)
  {
    hide Perform, AddedEvents, MoveOf, Moved;
    var added, after := AddedEvents(db, call.request, call.at), Step(db, call);
    RequestFollows(db, call.request, call.at, id);
    RequestBoosts(db, call.request, call.at, id);
    EventsAreAdded(db, call.request, call.at);
    MoveKeepsBoost(db.ads[id], MoveOf(db, call.request, call.at, id), call.at);
    assert forall i :: 0 <= i < |db.events| ==> after.events[i] == db.events[i];
    assert forall i :: |db.events| <= i < |after.events| ==> after.events[i] == added[0];
  }

  lemma {:induction false} RunKeepsBoostsDisjoint(db: Db, calls: seq<Call>, id: Id)
    requires id in db.ads && BoostsDisjoint(db, id)
    ensures id in Run(db, calls).ads && BoostsDisjoint(Run(db, calls), id)
    ensures NotEarlier(db.ads[id].boostedUntil, Run(db, calls).ads[id].boostedUntil)
    decreases |calls|
  {
    if calls != [] {
      StepKeepsBoostsDisjoint(db, calls[0], id);
      RunKeepsBoostsDisjoint(Step(db, calls[0]), calls[1..], id);
    }
  }

  // From empty tables, every advertisement of every run.
  ghost predicate AllBoostsDisjoint(db: Db) {
    EventsKnown(db) && forall id :: id in db.ads ==> BoostsDisjoint(db, id)
  }

  lemma StepKeepsAllBoostsDisjoint(db: Db, call: Call)
    requires AllBoostsDisjoint(db)
    ensures AllBoostsDisjoint(Step(db, call))
  {
    StepKeepsEventsKnown(db, call);
    hide Step;
    forall id | id in Step(db, call).ads ensures BoostsDisjoint(Step(db, call), id) {
      if id in db.ads {
        StepKeepsBoostsDisjoint(db, call, id);
      } else {
        NewHasNoEvents(db, call, id);
      }
    }
  }

  lemma {:induction false} RunKeepsAllBoostsDisjoint(db: Db, calls: seq<Call>)
    requires AllBoostsDisjoint(db)
    ensures AllBoostsDisjoint(Run(db, calls))
    decreases |calls|
  {
    hide AllBoostsDisjoint, Step;
    if calls != [] {
      StepKeepsAllBoostsDisjoint(db, calls[0]);
      RunKeepsAllBoostsDisjoint(Step(db, calls[0]), calls[1..]);
    }
  }

  lemma {:induction false} ReachableBoostsDisjoint(settings: Settings, calls: seq<Call>, id: Id)
    ensures var end := Run(EmptyDb(settings), calls);
            id in end.ads ==> BoostsDisjoint(end, id)
  {
    RunKeepsAllBoostsDisjoint(EmptyDb(settings), calls);
  }
}
