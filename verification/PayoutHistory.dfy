/** The statuses of payouts over whole runs: which requests and commits succeed, and that each payout has the status
    that the last of them gave it. */
module PayoutHistory {
  import opened MapSums
  import opened Payouts
  import opened Wrappers

  /* One step. */

  // The earnings a user can still ask for: the user's own, available and in no payout.
  predicate Free(db: Db, user: Id, id: Id) {
    && id in db.earnings && db.earnings[id].user == user
    && db.earnings[id].status == Available && db.earnings[id].payout == None
  }

  ghost function Worth(db: Db, ids: set<Id>): int {
    Total(Values(db, ids))
  }

  function Values(db: Db, ids: set<Id>): map<Id, int> {
    map id | id in ids && id in db.earnings :: db.earnings[id].diamonds
  }

  // A request is carried out for free earnings of at least 5000 diamonds.
  ghost predicate Takes(db: Db, user: Id, payout: Id, chosen: set<Id>) {
    && payout !in db.payouts && (forall id :: id in chosen ==> Free(db, user, id))
    && Worth(db, chosen) >= 5000
  }

  function FirstStatus(manual: bool): PayoutStatus {
    if manual then Pending else Processing
  }

  // A request locks exactly the chosen earnings for a new payout of their total, or changes nothing.
  lemma RequestTakes(db: Db, user: Id, payout: Id, chosen: set<Id>, manual: bool)
    ensures
      var after := Request(db, user, payout, chosen, manual);
      if Takes(db, user, payout, chosen) then
        var total := Worth(db, chosen);
        && after.payouts == db.payouts[payout := Payout(user, FirstStatus(manual), total)]
        && after.ledger == db.ledger + [LedgerRow(user, PayoutDebit, -total)]
        && after.earnings.Keys == db.earnings.Keys
        && forall id :: id in db.earnings ==>
             after.earnings[id]
             == if id in chosen then Earning(user, db.earnings[id].diamonds, Locked, Some(payout)) else db.earnings[id]
      else after == db
  {
    assert Chosen(db, chosen) == Values(db, chosen);
    assert forall id :: Free(db, user, id) <==> Eligible(db, user, id);
    hide Eligible;
  }

  // Everything the read saw locked for the payout still is.
  predicate NothingMoved(db: Db, read: Snapshot) {
    forall id :: id in read.locked ==>
      id in db.earnings && db.earnings[id].status == Locked && db.earnings[id].payout == Some(read.payout)
  }

  predicate Succeeds(db: Db, action: Action, read: Snapshot) {
    action.Release? ==> NothingMoved(db, read)
  }

  function RecordedStatus(action: Action): PayoutStatus {
    match action
    case MarkProcessing => Processing
    case Approve => Paid
    case Release(next) => next
  }

  // A commit records the status its action stands for on its own payout and no other, or changes nothing at all, and
  // only a release can fail; only one that releases something writes to the ledger, one row of its total.
  lemma CommitRecords(db: Db, action: Action, read: Snapshot)
    requires read.payout in db.payouts
    ensures
      var (after, ok) := Commit(db, action, read);
      && (ok <==> Succeeds(db, action, read))
      && (!ok ==> after == db)
      && (ok ==>
            var row := db.payouts[read.payout];
            after.payouts == db.payouts[read.payout := Payout(row.user, RecordedStatus(action), row.diamonds)])
      && (after.ledger != db.ledger ==> ok && action.Release? && Total(read.locked) > 0)
      && (ok && action.Release? && Total(read.locked) > 0 ==>
            after.ledger == db.ledger + [LedgerRow(read.user, PayoutReversal, Total(read.locked))])
  {
    assert StillLocked(db, read) <==> NothingMoved(db, read);
  }

  // What a successful commit does to the earnings: an approval pays all that is locked for the payout, a release frees
  // all that its read saw locked, and nothing else moves.
  lemma CommitSettles(db: Db, action: Action, read: Snapshot, id: Id)
    requires read.payout in db.payouts && id in db.earnings && Succeeds(db, action, read)
    ensures
      var after, before := Commit(db, action, read).0, db.earnings[id];
      && id in after.earnings
      && after.earnings[id]
         == if action == Approve && before.status == Locked && before.payout == Some(read.payout) then
              Earning(before.user, before.diamonds, PaidOut, before.payout)
            else if action.Release? && id in read.locked then
              Earning(before.user, before.diamonds, Available, None)
            else before
  {
    assert StillLocked(db, read) <==> NothingMoved(db, read);
  }

  // An action begins only on a payout that is pending or being processed, and sees what is locked for it then.
  lemma BeginReads(s: State, request: nat, action: Action, payout: Id)
    requires request !in s.started
    ensures
      var after := Step(s, Begin(request, action, payout));
      && after.db == s.db
      && (request in after.started
          <==> WellFormed(action) && payout in s.db.payouts && s.db.payouts[payout].status in {Pending, Processing})
      && (request in after.started ==>
            var (begun, read) := after.started[request];
            && begun == action && read.payout == payout && read.user == s.db.payouts[payout].user
            && read.status == s.db.payouts[payout].status
            && forall id :: id in read.locked
                 <==> id in s.db.earnings && s.db.earnings[id].status == Locked
                      && s.db.earnings[id].payout == Some(payout))
  {
  }

  /* Over runs. */

  function StatusOf(db: Db, payout: Id): Option<PayoutStatus> {
    if payout in db.payouts then Some(db.payouts[payout].status) else None
  }

  // The status an event gives a payout, if it gives it one.
  ghost function Given(s: State, event: Event, payout: Id): Option<PayoutStatus> {
    match event
    case RequestPayout(user, requested, chosen, manual) =>
      if requested == payout && Takes(s.db, user, payout, chosen) then Some(FirstStatus(manual)) else None
    case Begin(_, _, _) => None
    case Finish(request) =>
      if request in s.started && s.started[request].1.payout == payout && payout in s.db.payouts
         && Succeeds(s.db, s.started[request].0, s.started[request].1)
      then Some(RecordedStatus(s.started[request].0))
      else None
  }

  ghost function LastGiven(s: State, events: seq<Event>, payout: Id, status: Option<PayoutStatus>): Option<PayoutStatus>
    decreases |events|
  {
    if events == [] then status
    else
      var given := Given(s, events[0], payout);
      LastGiven(Step(s, events[0]), events[1..], payout, if given.Some? then given else status)
  }

  lemma StepGives(s: State, event: Event, payout: Id)
    ensures
      var given := Given(s, event, payout);
      StatusOf(Step(s, event).db, payout) == if given.Some? then given else StatusOf(s.db, payout)
  {
    hide Request, Commit, Succeeds;
    match event
    case RequestPayout(user, requested, chosen, manual) => RequestTakes(s.db, user, requested, chosen, manual);
    case Begin(_, _, _) =>
    case Finish(request) =>
      if request in s.started && s.started[request].1.payout in s.db.payouts {
        CommitRecords(s.db, s.started[request].0, s.started[request].1);
      }
  }

  // In every interleaving a payout has the status its request gave it, pending for a manual method and processing for
  // the others, or else the one of the last commit that succeeded on it.
  lemma {:induction false} StatusIsTheLastGiven(s: State, events: seq<Event>, payout: Id)
    ensures StatusOf(Run(s, events).db, payout) == LastGiven(s, events, payout, StatusOf(s.db, payout))
    decreases |events|
  {
    hide Step, Given, StatusOf;
    if events != [] {
      StepGives(s, events[0], payout);
      StatusIsTheLastGiven(Step(s, events[0]), events[1..], payout);
    }
  }

  // Before any payout exists none is of fewer than 5000 diamonds, and so it stays.
  lemma {:induction false} PayoutsStayLarge(s: State, events: seq<Event>)
    requires forall p :: p in s.db.payouts ==> s.db.payouts[p].diamonds >= 5000
    ensures forall p :: p in Run(s, events).db.payouts ==> Run(s, events).db.payouts[p].diamonds >= 5000
    decreases |events|
  {
    hide Step;
    if events != [] {
      StepKeepsLarge(s, events[0]);
      PayoutsStayLarge(Step(s, events[0]), events[1..]);
    }
  }

  lemma StepKeepsLarge(s: State, event: Event)
    requires forall p :: p in s.db.payouts ==> s.db.payouts[p].diamonds >= 5000
    ensures forall p :: p in Step(s, event).db.payouts ==> Step(s, event).db.payouts[p].diamonds >= 5000
  {
    hide Request, Commit, Succeeds;
    match event
    case RequestPayout(user, requested, chosen, manual) => RequestTakes(s.db, user, requested, chosen, manual);
    case Begin(_, _, _) =>
    case Finish(request) =>
      if request in s.started && s.started[request].1.payout in s.db.payouts {
        CommitRecords(s.db, s.started[request].0, s.started[request].1);
      }
  }
}
