/** Payout settlement. Every administrator action reads the payout first and commits later, so any number of
    actions can stand between a read and its commit. */
module Payouts {
  import opened Wrappers
  import opened MapSums

  type Id = nat // stands for a database UUID

  datatype PayoutStatus = Pending | Processing | Paid | Rejected | Cancelled | Failed | Returned | Unclaimed

  datatype EarningStatus = OnHold | Available | Locked | PaidOut | Reversed

  datatype Earning = Earning(user: Id, diamonds: nat, status: EarningStatus, payout: Option<Id>)

  datatype Payout = Payout(user: Id, status: PayoutStatus, diamonds: int)

  datatype LedgerKind = PayoutDebit | PayoutReversal

  datatype LedgerRow = LedgerRow(user: Id, kind: LedgerKind, delta: int)

  datatype Db = Db(payouts: map<Id, Payout>, earnings: map<Id, Earning>, ledger: seq<LedgerRow>)

  const MINIMUM_PAYOUT := 5000

  predicate Open(status: PayoutStatus) {
    status in {Pending, Processing}
  }

  /* Requesting a payout: one transaction, which locks the chosen earnings. */

  predicate Eligible(db: Db, user: Id, id: Id) {
    && id in db.earnings && db.earnings[id].user == user
    && db.earnings[id].status == Available && db.earnings[id].payout.None?
  }

  ghost function Chosen(db: Db, chosen: set<Id>): map<Id, int> {
    map id | id in db.earnings && id in chosen :: db.earnings[id].diamonds
  }

  ghost predicate CanRequest(db: Db, user: Id, payout: Id, chosen: set<Id>) {
    && payout !in db.payouts
    && (forall id :: id in chosen ==> Eligible(db, user, id))
    && Total(Chosen(db, chosen)) >= MINIMUM_PAYOUT
  }

  ghost function Request(db: Db, user: Id, payout: Id, chosen: set<Id>, manual: bool): Db {
    if !CanRequest(db, user, payout, chosen) then db
    else
      var total := Total(Chosen(db, chosen));
      Db(db.payouts[payout := Payout(user, if manual then Pending else Processing, total)],
         map id | id in db.earnings ::
           if id in chosen then db.earnings[id].(status := Locked, payout := Some(payout)) else db.earnings[id],
         db.ledger + [LedgerRow(user, PayoutDebit, -total)])
  }

  /* The administrator's actions. */

  datatype Action = MarkProcessing | Approve | Release(next: PayoutStatus)

  // What an action read before its transaction: the payout row and its locked earnings.
  datatype Snapshot = Snapshot(payout: Id, user: Id, status: PayoutStatus, locked: map<Id, int>)

  function LockedFor(db: Db, payout: Id): map<Id, int> {
    map id | id in db.earnings && db.earnings[id].payout == Some(payout) && db.earnings[id].status == Locked ::
      db.earnings[id].diamonds
  }

  function Read(db: Db, payout: Id): Snapshot
    requires payout in db.payouts
  {
    Snapshot(payout, db.payouts[payout].user, db.payouts[payout].status, LockedFor(db, payout))
  }

  // Every action refuses a payout that the read shows as settled.
  predicate Accepts(db: Db, payout: Id) {
    payout in db.payouts && Open(db.payouts[payout].status)
  }

  function SetStatus(db: Db, payout: Id, status: PayoutStatus): Db
    requires payout in db.payouts
  {
    db.(payouts := db.payouts[payout := db.payouts[payout].(status := status)])
  }

  predicate StillLocked(db: Db, read: Snapshot) {
    forall id :: id in read.locked ==>
      id in db.earnings && db.earnings[id].payout == Some(read.payout) && db.earnings[id].status == Locked
  }

  function Released(earnings: map<Id, Earning>, ids: set<Id>): (released: map<Id, Earning>)
    ensures ids == {} ==> released == earnings
  {
    map id | id in earnings :: if id in ids then earnings[id].(status := Available, payout := None) else earnings[id]
  }

  // The commit of an action, on whatever the database holds by then.
  ghost function Commit(db: Db, action: Action, read: Snapshot): (outcome: (Db, bool))
    requires read.payout in db.payouts
  {
    match action
    case MarkProcessing => (SetStatus(db, read.payout, Processing), true)
    case Approve =>
      var settled := map id | id in db.earnings ::
        if db.earnings[id].payout == Some(read.payout) && db.earnings[id].status == Locked then
          db.earnings[id].(status := PaidOut)
        else db.earnings[id];
      (SetStatus(db, read.payout, Paid).(earnings := settled), true)
    case Release(next) =>
      if !StillLocked(db, read) then (db, false) // the transaction throws and is rolled back
      else
        var diamonds := Total(read.locked);
        var ledger := if diamonds > 0 then db.ledger + [LedgerRow(read.user, PayoutReversal, diamonds)] else db.ledger;
        (SetStatus(db, read.payout, next).(earnings := Released(db.earnings, read.locked.Keys), ledger := ledger), true)
  }

  /* Interleavings. */

  // The database and the actions that have read but not yet committed.
  datatype State = State(db: Db, started: map<nat, (Action, Snapshot)>)

  datatype Event =
    | RequestPayout(user: Id, payout: Id, chosen: set<Id>, manual: bool)
    | Begin(request: nat, action: Action, payout: Id)
    | Finish(request: nat)

  // Release names the status it ends in: anything but an open or a paid one.
  predicate WellFormed(action: Action) {
    action.Release? ==> action.next in {Rejected, Cancelled, Failed, Returned, Unclaimed}
  }

  ghost function Step(s: State, event: Event): State {
    match event
    case RequestPayout(user, payout, chosen, manual) => s.(db := Request(s.db, user, payout, chosen, manual))
    case Begin(request, action, payout) =>
      if Accepts(s.db, payout) && WellFormed(action) && request !in s.started then
        s.(started := s.started[request := (action, Read(s.db, payout))])
      else s
    case Finish(request) =>
      if request in s.started && s.started[request].1.payout in s.db.payouts then
        State(Commit(s.db, s.started[request].0, s.started[request].1).0, s.started - {request})
      else s
  }

  ghost function Run(s: State, events: seq<Event>): State
    decreases |events|
  {
    if events == [] then s else Run(Step(s, events[0]), events[1..])
  }

  /* What every interleaving keeps. */

  ghost predicate Consistent(s: State) {
    && (forall id :: id in s.db.earnings ==> EarningOk(s.db, s.db.earnings[id]))
    && (forall r :: r in s.started ==> ReadOk(s.db, s.started[r].1))
  }

  ghost predicate EarningOk(db: Db, earning: Earning) {
    && (earning.status == Locked || earning.status == PaidOut ==>
          && earning.payout.Some? && earning.payout.value in db.payouts
          && db.payouts[earning.payout.value].user == earning.user)
    && (earning.status == Available ==> earning.payout.None?)
  }

  // A read may be out of date, but the amounts and the owner it saw do not change.
  ghost predicate ReadOk(db: Db, read: Snapshot) {
    && read.payout in db.payouts && read.user == db.payouts[read.payout].user
    && (forall id :: id in read.locked ==>
          id in db.earnings && db.earnings[id].diamonds == read.locked[id] && db.earnings[id].user == read.user)
  }

  // Earnings move only along these lines, and keep their owner and amount.
  ghost predicate Moves(before: Earning, after: Earning, s: State, event: Event, id: Id) {
    && after.user == before.user && after.diamonds == before.diamonds
    && (after == before
        || (before.status == Available && after.status == Locked && event.RequestPayout?
            && after.payout == Some(event.payout) && before.payout.None?)
        || (before.status == Locked && event.Finish? && event.request in s.started
            && before.payout == Some(s.started[event.request].1.payout)
            && match s.started[event.request].0
               case MarkProcessing => false
               case Approve => after.status == PaidOut && after.payout == before.payout
               case Release(_) =>
                 after.status == Available && after.payout.None? && id in s.started[event.request].1.locked))
  }

  // A locked earning leaves by exactly one door, the commit of an action on the payout it is locked for, to be
  // paid or to be released; a paid one stays paid.
  lemma StepMovesEarning(s: State, event: Event, id: Id)
    requires id in s.db.earnings
    ensures id in Step(s, event).db.earnings
    ensures Moves(s.db.earnings[id], Step(s, event).db.earnings[id], s, event, id)
  {
  }

  lemma {:induction false} PaidStaysPaid(s: State, events: seq<Event>, id: Id)
    requires id in s.db.earnings && s.db.earnings[id].status == PaidOut
    ensures id in Run(s, events).db.earnings && Run(s, events).db.earnings[id] == s.db.earnings[id]
    decreases |events|
  {
    if events != [] {
      StepMovesEarning(s, events[0], id);
      PaidStaysPaid(Step(s, events[0]), events[1..], id);
    }
  }

  lemma StepKeepsPayouts(s: State, event: Event, payout: Id)
    requires payout in s.db.payouts
    ensures payout in Step(s, event).db.payouts
    ensures Step(s, event).db.payouts[payout].user == s.db.payouts[payout].user
    ensures Step(s, event).db.payouts[payout].diamonds == s.db.payouts[payout].diamonds
  {
  }

  lemma StepKeepsConsistent(s: State, event: Event)
    requires Consistent(s)
    ensures Consistent(Step(s, event))
  {
    var after := Step(s, event);
    assert after.db.earnings.Keys == s.db.earnings.Keys;
    forall id | id in after.db.earnings
      ensures EarningOk(after.db, after.db.earnings[id])
    {
      StepMovesEarning(s, event, id);
      var earning := s.db.earnings[id];
      assert EarningOk(s.db, earning);
      if earning.payout.Some? && earning.payout.value in s.db.payouts {
        StepKeepsPayouts(s, event, earning.payout.value);
      }
    }
    forall r | r in after.started
      ensures ReadOk(after.db, after.started[r].1)
    {
      if r in s.started {
        ReadStaysOk(s, event, s.started[r].1);
      } else {
        assert forall id :: id in s.db.earnings ==> EarningOk(s.db, s.db.earnings[id]);
      }
    }
  }

  lemma ReadStaysOk(s: State, event: Event, read: Snapshot)
    requires ReadOk(s.db, read)
    ensures ReadOk(Step(s, event).db, read)
  {
    StepKeepsPayouts(s, event, read.payout);
    forall id | id in read.locked {
      StepMovesEarning(s, event, id);
    }
  }

  /* Money. */

  // The diamonds of a user's earnings in the given states.
  function Rows(db: Db, user: Id, statuses: set<EarningStatus>): map<Id, int> {
    map id | id in db.earnings ::
      if db.earnings[id].user == user && db.earnings[id].status in statuses then db.earnings[id].diamonds else 0
  }

  ghost function Diamonds(db: Db, user: Id, statuses: set<EarningStatus>): int {
    Total(Rows(db, user, statuses))
  }

  function LedgerSum(ledger: seq<LedgerRow>, user: Id): int {
    if ledger == [] then 0
    else
      var last := ledger[|ledger| - 1];
      LedgerSum(ledger[..|ledger| - 1], user) + (if last.user == user then last.delta else 0)
  }

  lemma {:induction false} OneMoreRow(ledger: seq<LedgerRow>, row: LedgerRow, user: Id)
    ensures LedgerSum(ledger + [row], user) == LedgerSum(ledger, user) + (if row.user == user then row.delta else 0)
  {
    assert (ledger + [row])[..|ledger|] == ledger;
  }

  // Moving a set of one user's earnings into the given states adds their total to that user's.
  lemma {:induction false} MovedIn(
      before: Db, after: Db, user: Id, owner: Id, statuses: set<EarningStatus>, moved: map<Id, int>)
    requires before.earnings.Keys == after.earnings.Keys && moved.Keys <= before.earnings.Keys
    requires forall id :: id in before.earnings ==>
      && after.earnings[id].user == before.earnings[id].user
      && after.earnings[id].diamonds == before.earnings[id].diamonds
      && (id in moved ==>
            && before.earnings[id].user == owner && before.earnings[id].diamonds == moved[id]
            && before.earnings[id].status !in statuses && after.earnings[id].status in statuses)
      && (id !in moved ==> (after.earnings[id].status in statuses <==> before.earnings[id].status in statuses))
    ensures Diamonds(after, user, statuses)
         == Diamonds(before, user, statuses) + (if user == owner then Total(moved) else 0)
  {
    if user == owner {
      var part: map<Id, int> := map id | id in before.earnings :: if id in moved then moved[id] else 0;
      TotalSupport(part, moved);
      TotalAdds(Rows(before, user, statuses), part, Rows(after, user, statuses));
    } else {
      assert Rows(after, user, statuses) == Rows(before, user, statuses);
    }
  }

  // What the user is owed or was paid, plus the payout rows of the ledger, is constant; so are all the diamonds
  // the user has in play.
  ghost predicate Balanced(before: Db, after: Db, user: Id) {
    && Diamonds(after, user, {Available, Locked, PaidOut}) == Diamonds(before, user, {Available, Locked, PaidOut})
    && LedgerSum(after.ledger, user) - LedgerSum(before.ledger, user) ==
         Diamonds(after, user, {Available}) - Diamonds(before, user, {Available})
  }

  lemma RequestBalances(db: Db, user: Id, payout: Id, chosen: set<Id>, manual: bool, someone: Id)
    ensures Balanced(db, Request(db, user, payout, chosen, manual), someone)
  {
    if CanRequest(db, user, payout, chosen) {
      var after := Request(db, user, payout, chosen, manual);
      OneMoreRow(db.ledger, LedgerRow(user, PayoutDebit, -Total(Chosen(db, chosen))), someone);
      MovedIn(after, db, someone, user, {Available}, Chosen(db, chosen));
      RequestKeepsPlay(db, user, payout, chosen, manual, someone);
    }
  }

  lemma RequestKeepsPlay(db: Db, user: Id, payout: Id, chosen: set<Id>, manual: bool, someone: Id)
    requires CanRequest(db, user, payout, chosen)
    ensures Rows(Request(db, user, payout, chosen, manual), someone, {Available, Locked, PaidOut})
         == Rows(db, someone, {Available, Locked, PaidOut})
  {
  }

  lemma CommitBalances(db: Db, action: Action, read: Snapshot, someone: Id)
    requires ReadOk(db, read)
    ensures Balanced(db, Commit(db, action, read).0, someone)
  {
    var after := Commit(db, action, read).0;
    assert Rows(after, someone, {Available, Locked, PaidOut}) == Rows(db, someone, {Available, Locked, PaidOut});
    if action.Release? && StillLocked(db, read) {
      MovedIn(db, after, someone, read.user, {Available}, read.locked);
      TotalIsNatural(read.locked);
      if Total(read.locked) > 0 {
        OneMoreRow(db.ledger, LedgerRow(read.user, PayoutReversal, Total(read.locked)), someone);
      }
    } else {
      assert Rows(after, someone, {Available}) == Rows(db, someone, {Available});
    }
  }

  // In every interleaving: available plus locked plus paid diamonds never change, and the ledger moves by
  // exactly what becomes available again less what is locked, for every user.
  lemma {:induction false} RunBalances(s: State, events: seq<Event>, user: Id)
    requires Consistent(s)
    ensures Consistent(Run(s, events)) && Balanced(s.db, Run(s, events).db, user)
    decreases |events|
  {
    if events != [] {
      StepKeepsConsistent(s, events[0]);
      match events[0] {
        case RequestPayout(owner, payout, chosen, manual) =>
          RequestBalances(s.db, owner, payout, chosen, manual, user);
        case Begin(_, _, _) =>
        case Finish(request) =>
          if request in s.started {
            CommitBalances(s.db, s.started[request].0, s.started[request].1, user);
          }
      }
      RunBalances(Step(s, events[0]), events[1..], user);
    }
  }

  /* Debits and reversals, kind by kind. */

  function KindSum(ledger: seq<LedgerRow>, user: Id, kind: LedgerKind): int {
    if ledger == [] then 0
    else
      var last := ledger[|ledger| - 1];
      KindSum(ledger[..|ledger| - 1], user, kind) + (if last.user == user && last.kind == kind then last.delta else 0)
  }

  lemma {:induction false} OneMoreOfKind(ledger: seq<LedgerRow>, row: LedgerRow, user: Id, kind: LedgerKind)
    ensures KindSum(ledger + [row], user, kind)
         == KindSum(ledger, user, kind) + (if row.user == user && row.kind == kind then row.delta else 0)
  {
    assert (ledger + [row])[..|ledger|] == ledger;
  }

  // The user's earnings that went from one status to the other.
  function Moved(before: Db, after: Db, user: Id, from: EarningStatus, to: EarningStatus): map<Id, int> {
    map id | id in before.earnings && id in after.earnings && before.earnings[id].user == user
             && before.earnings[id].status == from && after.earnings[id].status == to :: before.earnings[id].diamonds
  }

  // The ledger's reversals are what was released, and its debits what was locked.
  ghost predicate Explained(before: Db, after: Db, user: Id) {
    && KindSum(after.ledger, user, PayoutReversal) - KindSum(before.ledger, user, PayoutReversal)
       == Total(Moved(before, after, user, Locked, Available))
    && KindSum(after.ledger, user, PayoutDebit) - KindSum(before.ledger, user, PayoutDebit)
       == -Total(Moved(before, after, user, Available, Locked))
  }

  lemma NothingExplained(before: Db, after: Db, user: Id)
    requires after.ledger == before.ledger
    requires Moved(before, after, user, Locked, Available) == Moved(before, after, user, Available, Locked) == map[]
    ensures Explained(before, after, user)
  {
  }

  lemma RequestExplained(db: Db, user: Id, payout: Id, chosen: set<Id>, manual: bool, someone: Id)
    ensures Explained(db, Request(db, user, payout, chosen, manual), someone)
  {
    var after := Request(db, user, payout, chosen, manual);
    assert Moved(db, after, someone, Locked, Available) == map[];
    if CanRequest(db, user, payout, chosen) {
      var row := LedgerRow(user, PayoutDebit, -Total(Chosen(db, chosen)));
      OneMoreOfKind(db.ledger, row, someone, PayoutDebit);
      OneMoreOfKind(db.ledger, row, someone, PayoutReversal);
      assert Moved(db, after, someone, Available, Locked) == if someone == user then Chosen(db, chosen) else map[];
    } else {
      assert Moved(db, after, someone, Available, Locked) == map[];
    }
  }

  lemma CommitExplained(db: Db, action: Action, read: Snapshot, someone: Id)
    requires ReadOk(db, read)
    ensures Explained(db, Commit(db, action, read).0, someone)
  {
    var after := Commit(db, action, read).0;
    if action.Release? && StillLocked(db, read) {
      ReleaseExplained(db, action, read, someone);
    } else {
      assert Moved(db, after, someone, Available, Locked) == map[];
      assert Moved(db, after, someone, Locked, Available) == map[];
      NothingExplained(db, after, someone);
    }
  }

  lemma ReleaseExplained(db: Db, action: Action, read: Snapshot, someone: Id)
    requires ReadOk(db, read) && action.Release? && StillLocked(db, read)
    ensures Explained(db, Commit(db, action, read).0, someone)
  {
    var after := Commit(db, action, read).0;
    ReleaseMoves(db, action, read, someone);
    TotalIsNatural(read.locked);
    hide Moved, StillLocked, ReadOk;
    if Total(read.locked) > 0 {
      var row := LedgerRow(read.user, PayoutReversal, Total(read.locked));
      OneMoreOfKind(db.ledger, row, someone, PayoutDebit);
      OneMoreOfKind(db.ledger, row, someone, PayoutReversal);
    }
  }

  lemma ReleaseMoves(db: Db, action: Action, read: Snapshot, someone: Id)
    requires ReadOk(db, read) && action.Release? && StillLocked(db, read)
    ensures var after := Commit(db, action, read).0;
            && Moved(db, after, someone, Available, Locked) == map[]
            && Moved(db, after, someone, Locked, Available) == if someone == read.user then read.locked else map[]
  {
  }

  // The diamonds of the user that went from one status to the other, over a run.
  ghost function MovedDuring(s: State, events: seq<Event>, user: Id, from: EarningStatus, to: EarningStatus): int
    decreases |events|
  {
    if events == [] then 0
    else
      Total(Moved(s.db, Step(s, events[0]).db, user, from, to))
      + MovedDuring(Step(s, events[0]), events[1..], user, from, to)
  }

  // In every interleaving the PAYOUT_REVERSAL rows of a user add up to exactly the diamonds that went from LOCKED
  // back to AVAILABLE, and the PAYOUT_DEBIT rows to those that went from AVAILABLE to LOCKED.
  lemma {:induction false} RunReverses(s: State, events: seq<Event>, user: Id)
    requires Consistent(s)
    ensures KindSum(Run(s, events).db.ledger, user, PayoutReversal) - KindSum(s.db.ledger, user, PayoutReversal)
         == MovedDuring(s, events, user, Locked, Available)
    ensures KindSum(Run(s, events).db.ledger, user, PayoutDebit) - KindSum(s.db.ledger, user, PayoutDebit)
         == -MovedDuring(s, events, user, Available, Locked)
    decreases |events|
  {
    if events != [] {
      StepKeepsConsistent(s, events[0]);
      StepExplained(s, events[0], user);
      hide Step, Consistent, Moved;
      RunReverses(Step(s, events[0]), events[1..], user);
    }
  }

  lemma StepExplained(s: State, event: Event, user: Id)
    requires Consistent(s)
    ensures Explained(s.db, Step(s, event).db, user)
  {
    hide Explained, Commit, Request;
    if Step(s, event).db == s.db {
      assert Moved(s.db, s.db, user, Locked, Available) == map[];
      assert Moved(s.db, s.db, user, Available, Locked) == map[];
      NothingExplained(s.db, s.db, user);
    } else if event.RequestPayout? {
      RequestExplained(s.db, event.user, event.payout, event.chosen, event.manual, user);
    } else {
      CommitExplained(s.db, s.started[event.request].0, s.started[event.request].1, user);
    }
  }

  /* Statuses. */

  function PaidFor(db: Db, payout: Id): map<Id, int> {
    map id | id in db.earnings && db.earnings[id].payout == Some(payout) && db.earnings[id].status == PaidOut ::
      db.earnings[id].diamonds
  }

  // The status tells where the payout's diamonds are: locked while it is open, paid when it is paid, and no
  // longer with the payout when it was released.
  ghost predicate Truthful(db: Db, payout: Id)
    requires payout in db.payouts
  {
    var row, locked, paid := db.payouts[payout], Total(LockedFor(db, payout)), Total(PaidFor(db, payout));
    && row.diamonds > 0
    && locked == (if Open(row.status) then row.diamonds else 0)
    && paid == (if row.status == Paid then row.diamonds else 0)
  }

  // A read made while the status was true saw every diamond of the payout.
  ghost predicate ReadsAll(db: Db, read: Snapshot)
    requires read.payout in db.payouts
  {
    Total(read.locked) == db.payouts[read.payout].diamonds && LockedFor(db, read.payout).Keys <= read.locked.Keys
  }

  // The commits that act on a payout settled since they read it, without noticing.
  predicate Late(action: Action, status: PayoutStatus) {
    match action
    case MarkProcessing => !Open(status)
    case Approve => !Open(status) && status != Paid
    case Release(_) => false
  }

  lemma {:induction false} EmptyTotal(rows: map<Id, int>)
    requires rows == map[]
    ensures Total(rows) == 0
  {
  }

  lemma SomeRowIsLockedElsewhere(db: Db, read: Snapshot)
    requires ReadOk(db, read) && Total(read.locked) > Total(LockedFor(db, read.payout))
    ensures !StillLocked(db, read)
  {
    if StillLocked(db, read) {
      var locked := LockedFor(db, read.payout);
      var part: map<Id, int> := map id | id in locked :: if id in read.locked then read.locked[id] else 0;
      var rest: map<Id, int> := map id | id in locked :: if id in read.locked then 0 else locked[id];
      TotalSupport(part, read.locked);
      TotalAdds(part, rest, locked);
      TotalIsNatural(rest);
    }
  }

  // What a commit leaves with its payout.
  lemma ReleaseEmpties(db: Db, read: Snapshot, next: PayoutStatus)
    requires ReadOk(db, read) && ReadsAll(db, read) && StillLocked(db, read)
    ensures
      var after := Commit(db, Release(next), read).0;
      LockedFor(after, read.payout) == map[] && PaidFor(after, read.payout) == PaidFor(db, read.payout)
  {
    var after := Commit(db, Release(next), read).0;
    assert forall id :: id in LockedFor(db, read.payout).Keys ==> id in read.locked;
    assert LockedFor(after, read.payout) == map[];
  }

  lemma ApprovedRows(db: Db, read: Snapshot)
    requires read.payout in db.payouts
    ensures
      var after := Commit(db, Approve, read).0;
      var locked, paid := LockedFor(db, read.payout), PaidFor(db, read.payout);
      && LockedFor(after, read.payout) == map[]
      && locked.Keys !! paid.Keys
      && PaidFor(after, read.payout) == locked + paid
  {
  }

  lemma ApprovalPays(db: Db, read: Snapshot)
    requires read.payout in db.payouts
    ensures
      var after := Commit(db, Approve, read).0;
      && LockedFor(after, read.payout) == map[]
      && Total(PaidFor(after, read.payout)) == Total(PaidFor(db, read.payout)) + Total(LockedFor(db, read.payout))
  {
    var after := Commit(db, Approve, read).0;
    var locked, paid, all := LockedFor(db, read.payout), PaidFor(db, read.payout), PaidFor(after, read.payout);
    ApprovedRows(db, read);
    hide LockedFor, PaidFor, Commit;
    var fromLocked: map<Id, int> := map id | id in all :: if id in locked then locked[id] else 0;
    var fromPaid: map<Id, int> := map id | id in all :: if id in paid then paid[id] else 0;
    TotalSupport(fromLocked, locked);
    TotalSupport(fromPaid, paid);
    TotalAdds(fromLocked, fromPaid, all);
  }

  // A commit keeps the payout's status true exactly if it is not late: a processing mark must find the payout
  // still open, an approval must find it open or paid, and a release notices by itself.
  lemma CommitKeepsStatusTrueUnlessLate(db: Db, action: Action, read: Snapshot)
    requires ReadOk(db, read) && WellFormed(action)
    requires Truthful(db, read.payout) && ReadsAll(db, read)
    ensures Truthful(Commit(db, action, read).0, read.payout) <==> !Late(action, db.payouts[read.payout].status)
  {
    var after, status := Commit(db, action, read).0, db.payouts[read.payout].status;
    match action
    case MarkProcessing =>
      assert LockedFor(after, read.payout) == LockedFor(db, read.payout);
      assert PaidFor(after, read.payout) == PaidFor(db, read.payout);
    case Approve =>
      ApprovalPays(db, read);
      EmptyTotal(LockedFor(after, read.payout));
    case Release(next) =>
      if !Open(status) {
        SomeRowIsLockedElsewhere(db, read);
      } else if StillLocked(db, read) {
        ReleaseEmpties(db, read, next);
        EmptyTotal(LockedFor(after, read.payout));
      }
  }

  ghost predicate AllTruthful(s: State) {
    && Consistent(s)
    && (forall p :: p in s.db.payouts ==> Truthful(s.db, p))
    && (forall r :: r in s.started ==> WellFormed(s.started[r].0) && ReadsAll(s.db, s.started[r].1))
  }

  // Before the first payout.
  lemma StartIsTruthful(earnings: map<Id, Earning>)
    requires forall id :: id in earnings ==>
      earnings[id].status in {OnHold, Available, Reversed} && earnings[id].payout.None?
    ensures AllTruthful(State(Db(map[], earnings, []), map[]))
  {
  }

  ghost predicate LateStep(s: State, event: Event) {
    && event.Finish? && event.request in s.started && s.started[event.request].1.payout in s.db.payouts
    && Late(s.started[event.request].0, s.db.payouts[s.started[event.request].1.payout].status)
  }

  ghost predicate NeverLate(s: State, events: seq<Event>)
    decreases |events|
  {
    events != [] ==> !LateStep(s, events[0]) && NeverLate(Step(s, events[0]), events[1..])
  }

  lemma NewPayoutIsTruthful(db: Db, user: Id, payout: Id, chosen: set<Id>, manual: bool)
    requires CanRequest(db, user, payout, chosen)
    requires forall id :: id in db.earnings ==> EarningOk(db, db.earnings[id])
    ensures Truthful(Request(db, user, payout, chosen, manual), payout)
  {
    var after := Request(db, user, payout, chosen, manual);
    assert LockedFor(after, payout) == Chosen(db, chosen);
    assert PaidFor(after, payout) == map[];
    EmptyTotal(PaidFor(after, payout));
  }

  lemma RequestIsLocal(db: Db, user: Id, payout: Id, chosen: set<Id>, manual: bool, p: Id)
    requires CanRequest(db, user, payout, chosen) && p in db.payouts
    ensures
      var after := Request(db, user, payout, chosen, manual);
      && after.payouts[p] == db.payouts[p] && LockedFor(after, p) == LockedFor(db, p)
      && PaidFor(after, p) == PaidFor(db, p)
  {
  }

  lemma RequestIsTruthful(s: State, event: Event, p: Id)
    requires AllTruthful(s) && event.RequestPayout? && p in Step(s, event).db.payouts
    ensures Truthful(Step(s, event).db, p)
    ensures p in s.db.payouts ==> LockedFor(Step(s, event).db, p) == LockedFor(s.db, p)
  {
    hide LockedFor, PaidFor, CanRequest, Consistent;
    if CanRequest(s.db, event.user, event.payout, event.chosen) {
      if p in s.db.payouts {
        RequestIsLocal(s.db, event.user, event.payout, event.chosen, event.manual, p);
      } else {
        EarningsAreOk(s);
        NewPayoutIsTruthful(s.db, event.user, event.payout, event.chosen, event.manual);
      }
    }
  }

  lemma EarningsAreOk(s: State)
    requires Consistent(s)
    ensures forall id :: id in s.db.earnings ==> EarningOk(s.db, s.db.earnings[id])
  {
  }

  // A commit leaves the earnings of every other payout alone, and locks none of its own.
  lemma CommitIsLocal(db: Db, action: Action, read: Snapshot, p: Id)
    requires ReadOk(db, read) && p in db.payouts
    ensures LockedFor(Commit(db, action, read).0, p).Keys <= LockedFor(db, p).Keys
    ensures p != read.payout ==>
      && Commit(db, action, read).0.payouts[p] == db.payouts[p]
      && LockedFor(Commit(db, action, read).0, p) == LockedFor(db, p)
      && PaidFor(Commit(db, action, read).0, p) == PaidFor(db, p)
  {
    if action.Release? {
      ReleaseIsLocal(db, action, read, p);
    }
  }

  lemma ReleaseIsLocal(db: Db, action: Action, read: Snapshot, p: Id)
    requires ReadOk(db, read) && p in db.payouts && action.Release?
    ensures LockedFor(Commit(db, action, read).0, p).Keys <= LockedFor(db, p).Keys
    ensures p != read.payout ==>
      && Commit(db, action, read).0.payouts[p] == db.payouts[p]
      && LockedFor(Commit(db, action, read).0, p) == LockedFor(db, p)
      && PaidFor(Commit(db, action, read).0, p) == PaidFor(db, p)
  {
  }

  lemma FinishIsTruthful(s: State, event: Event, p: Id)
    requires AllTruthful(s) && event.Finish? && !LateStep(s, event) && p in s.db.payouts
    ensures p in Step(s, event).db.payouts && Truthful(Step(s, event).db, p)
    ensures LockedFor(Step(s, event).db, p).Keys <= LockedFor(s.db, p).Keys
  {
    hide LockedFor, PaidFor, EarningOk;
    if event.request in s.started {
      var (action, read) := s.started[event.request];
      CommitIsLocal(s.db, action, read, p);
      CommitKeepsStatusTrueUnlessLate(s.db, action, read);
    }
  }

  lemma StepKeepsTruthful(s: State, event: Event)
    requires AllTruthful(s) && !LateStep(s, event)
    ensures AllTruthful(Step(s, event))
  {
    hide LockedFor, PaidFor, Truthful;
    var after := Step(s, event);
    StepKeepsConsistent(s, event);
    forall p | p in after.db.payouts
      ensures Truthful(after.db, p)
      ensures p in s.db.payouts ==> LockedFor(after.db, p).Keys <= LockedFor(s.db, p).Keys
    {
      match event
      case RequestPayout(_, _, _, _) => RequestIsTruthful(s, event, p);
      case Begin(_, _, _) =>
      case Finish(_) => FinishIsTruthful(s, event, p);
    }
    forall r | r in after.started
      ensures WellFormed(after.started[r].0) && ReadsAll(after.db, after.started[r].1)
    {
      if r in s.started {
        var read := s.started[r].1;
        StepKeepsPayouts(s, event, read.payout);
        assert read.payout in after.db.payouts;
      } else {
        NewReadSeesAll(s, event, r);
      }
    }
  }

  lemma NewReadSeesAll(s: State, event: Event, r: nat)
    requires AllTruthful(s) && r in Step(s, event).started && r !in s.started
    ensures WellFormed(Step(s, event).started[r].0)
    ensures Step(s, event).started[r].1.payout in s.db.payouts && Step(s, event).db == s.db
    ensures ReadsAll(s.db, Step(s, event).started[r].1)
  {
    assert Truthful(s.db, event.payout);
  }

  // Without late commits, every payout's status tells the truth about its diamonds, in any interleaving.
  lemma {:induction false} RunKeepsTruthful(s: State, events: seq<Event>)
    requires AllTruthful(s) && NeverLate(s, events)
    ensures AllTruthful(Run(s, events))
    decreases |events|
  {
    if events != [] {
      StepKeepsTruthful(s, events[0]);
      RunKeepsTruthful(Step(s, events[0]), events[1..]);
    }
  }

  // The late commit that goes unnoticed: one administrator reads to approve, another rejects, and the first
  // commits. The payout ends paid while its earnings are available again, though the ledger still balances.
  lemma LateApprovalExample()
    ensures
      var start := State(Db(map[1 := Payout(7, Pending, 6000)], map[2 := Earning(7, 6000, Locked, Some(1))], []),
                         map[]);
      var read := Step(Step(start, Begin(1, Approve, 1)), Begin(2, Release(Rejected), 1));
      var end := Step(Step(read, Finish(2)), Finish(1));
      && AllTruthful(start)
      && end.db.payouts[1].status == Paid && end.db.earnings[2] == Earning(7, 6000, Available, None)
      && end.db.ledger == [LedgerRow(7, PayoutReversal, 6000)]
      && !Truthful(end.db, 1)
  {
    hide Commit, LockedFor, PaidFor;
    var start := State(Db(map[1 := Payout(7, Pending, 6000)], map[2 := Earning(7, 6000, Locked, Some(1))], []), map[]);
    OneOpenPayout(start);
    var snapshot := Snapshot(1, 7, Pending, map[2 := 6000]);
    var read := Step(Step(start, Begin(1, Approve, 1)), Begin(2, Release(Rejected), 1));
    assert read.started == map[1 := (Approve, snapshot), 2 := (Release(Rejected), snapshot)];
    RejectedThenApproved(start.db, snapshot);
    assert Step(read, Finish(2)).started == map[1 := (Approve, snapshot)];
  }

  lemma OneOpenPayout(s: State)
    requires s == State(Db(map[1 := Payout(7, Pending, 6000)], map[2 := Earning(7, 6000, Locked, Some(1))], []), map[])
    ensures AllTruthful(s) && LockedFor(s.db, 1) == map[2 := 6000]
  {
    OneRow(2, 6000);
    assert LockedFor(s.db, 1) == map[2 := 6000];
    assert PaidFor(s.db, 1) == map[];
  }

  lemma OneRow(id: Id, diamonds: int)
    ensures Total(map[id := diamonds]) == diamonds
  {
    TotalRemove(map[id := diamonds], id);
    assert map[id := diamonds] - {id} == map[];
  }

  lemma RejectedThenApproved(db: Db, read: Snapshot)
    requires db == Db(map[1 := Payout(7, Pending, 6000)], map[2 := Earning(7, 6000, Locked, Some(1))], [])
    requires read == Snapshot(1, 7, Pending, map[2 := 6000])
    ensures 1 in Commit(db, Release(Rejected), read).0.payouts
    ensures
      var end := Commit(Commit(db, Release(Rejected), read).0, Approve, read).0;
      && end.payouts[1].status == Paid && end.earnings == map[2 := Earning(7, 6000, Available, None)]
      && end.ledger == [LedgerRow(7, PayoutReversal, 6000)]
      && !Truthful(end, 1)
  {
    OneRow(2, 6000);
    var rejected := Commit(db, Release(Rejected), read).0;
    assert rejected.earnings == map[2 := Earning(7, 6000, Available, None)];
    var end := Commit(rejected, Approve, read).0;
    assert end.earnings == rejected.earnings;
    assert PaidFor(end, 1) == map[];
    EmptyTotal(PaidFor(end, 1));
  }
}
