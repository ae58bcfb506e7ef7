/** The administrator's payout actions, each as the read before its transaction and the transaction itself,
    proved to be the steps of Payouts.dfy. */
module PayoutService {
  import opened Wrappers
  import opened MapSums
  import opened Payouts

  class PayoutTables {
    var payouts: map<Id, Payout>
    var earnings: map<Id, Earning>
    var ledger: seq<LedgerRow>

    constructor (db: Db)
      ensures Value() == db
    {
      payouts, earnings, ledger := db.payouts, db.earnings, db.ledger;
    }

    function Value(): Db
      reads this
    {
      Db(payouts, earnings, ledger)
    }
  }

  class AdminPayoutsService {
    const tables: PayoutTables

    constructor (tables: PayoutTables)
      ensures this.tables == tables
    {
      this.tables := tables;
    }

    method FindUnique(payout: Id) returns (existing: Option<Snapshot>)
      ensures existing == if payout in tables.payouts then Some(Read(tables.Value(), payout)) else None
    {
      if payout !in tables.payouts {
        return None;
      }
      var earnings := tables.earnings;
      var locked := map id | id in earnings && earnings[id].payout == Some(payout) && earnings[id].status == Locked ::
        earnings[id].diamonds;
      existing := Some(Snapshot(payout, tables.payouts[payout].user, tables.payouts[payout].status, locked));
    }

    // The read and the guard of markProcessing and of approve.
    method BeginUnlessSettled(payout: Id) returns (existing: Option<Snapshot>)
      ensures existing == if Accepts(tables.Value(), payout) then Some(Read(tables.Value(), payout)) else None
    {
      existing := FindUnique(payout);
      if existing.None? {
        return;
      }
      var status := existing.value.status;
      if status == Paid || status == Rejected || status == Cancelled || status == Failed || status == Returned
         || status == Unclaimed {
        return None;
      }
    }

    // The read and the guard of reject and of markFailedAndRelease.
    method BeginIfOpen(payout: Id) returns (existing: Option<Snapshot>)
      ensures existing == if Accepts(tables.Value(), payout) then Some(Read(tables.Value(), payout)) else None
    {
      existing := FindUnique(payout);
      if existing.None? {
        return;
      }
      if existing.value.status != Pending && existing.value.status != Processing {
        return None;
      }
    }

    method FinishMarkProcessing(existing: Snapshot)
      requires existing.payout in tables.payouts
      modifies tables
      ensures tables.Value() == Commit(old(tables.Value()), MarkProcessing, existing).0
    {
      var id := existing.payout;
      tables.payouts := tables.payouts[id := tables.payouts[id].(status := Processing)];
    }

    method FinishApprove(existing: Snapshot)
      requires existing.payout in tables.payouts
      modifies tables
      ensures tables.Value() == Commit(old(tables.Value()), Approve, existing).0
    {
      var payout, earnings := existing.payout, tables.earnings;
      tables.payouts := tables.payouts[payout := tables.payouts[payout].(status := Paid)];
      tables.earnings := map id | id in earnings ::
        if earnings[id].payout == Some(payout) && earnings[id].status == Locked then earnings[id].(status := PaidOut)
        else earnings[id];
    }

    method SumLocked(locked: map<Id, int>) returns (sum: int)
      ensures sum == Total(locked)
    {
      var rest := locked;
      sum := 0;
      while rest != map[]
        invariant sum + Total(rest) == Total(locked)
        decreases rest
      {
        var id :| id in rest;
        TotalRemove(rest, id);
        sum := sum + rest[id];
        rest := rest - {id};
      }
    }

    // The transaction of reject and of markFailedAndRelease: it throws, and changes nothing, unless every earning
    // the read saw locked is still locked for this payout.
    method FinishRelease(existing: Snapshot, next: PayoutStatus) returns (ok: bool)
      requires existing.payout in tables.payouts
      modifies tables
      ensures (tables.Value(), ok) == Commit(old(tables.Value()), Release(next), existing)
    {
      var payout, earnings, locked := existing.payout, tables.earnings, existing.locked;
      var releasedDiamonds := SumLocked(locked);
      if locked != map[] {
        var matching := set id |
          id in locked && id in earnings && earnings[id].payout == Some(payout) && earnings[id].status == Locked;
        assert matching <= locked.Keys;
        assert StillLocked(tables.Value(), existing) ==> matching == locked.Keys;
        if |matching| != |locked.Keys| {
          return false;
        }
        SameSize(matching, locked.Keys);
        tables.earnings := Released(earnings, matching);
        if releasedDiamonds > 0 {
          tables.ledger := tables.ledger + [LedgerRow(existing.user, PayoutReversal, releasedDiamonds)];
        }
      }
      tables.payouts := tables.payouts[payout := tables.payouts[payout].(status := next)];
      ok := true;
    }

    lemma SameSize(part: set<Id>, whole: set<Id>)
      requires part <= whole && |part| == |whole|
      ensures part == whole
    {
      if part != whole {
        var id :| id in whole && id !in part;
        assert part <= whole - {id};
        SizeOfSubset(part, whole - {id});
      }
    }

    lemma SizeOfSubset(part: set<Id>, whole: set<Id>)
      requires part <= whole
      ensures |part| <= |whole|
      decreases part
    {
      if part != {} {
        var id :| id in part;
        SizeOfSubset(part - {id}, whole - {id});
      }
    }
  }
}
