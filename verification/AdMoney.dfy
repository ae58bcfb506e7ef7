/** Wallets, ledger and billing events over whole runs. */
module AdMoney {
  import opened Wrappers
  import opened AdModel
  import opened AdLifecycle

  function LedgerCoins(ledger: seq<LedgerEntry>, user: Id): int {
    if ledger == [] then 0
    else
      var last := ledger[|ledger| - 1];
      LedgerCoins(ledger[..|ledger| - 1], user) + (if last.user == user then last.deltaCoins else 0)
  }

  function LedgerDiamonds(ledger: seq<LedgerEntry>, user: Id): int {
    if ledger == [] then 0
    else
      var last := ledger[|ledger| - 1];
      LedgerDiamonds(ledger[..|ledger| - 1], user) + (if last.user == user then last.deltaDiamonds else 0)
  }

  // The ledger rows a request adds: a debit for a successful charge, or the row of a credit.
  function AddedEntries(db: Db, request: Request, now: int): seq<LedgerEntry> {
    if request.CreditWallet? then [LedgerEntry(request.user, Credit, request.coins, request.diamonds)]
    else
      var added := AddedEvents(db, request, now);
      if added == [] then [] else EntriesOf(added[0])
  }

  function EntriesOf(event: BillingEvent): seq<LedgerEntry> {
    if event.ledgerRow.None? then []
    else [Debit(event.user, LedgerKindOf(event.kind), event.currency, event.Charge())]
  }

  // A user's wallet moves by exactly the added rows, and the database never lets it fall below zero.
  ghost predicate Accounts(db: Db, added: seq<LedgerEntry>, after: Db, user: Id) {
    && after.ledger == db.ledger + added && |added| <= 1
    && WalletOf(after, user).coins ==
         WalletOf(db, user).coins + (if added != [] && added[0].user == user then added[0].deltaCoins else 0)
    && WalletOf(after, user).diamonds ==
         WalletOf(db, user).diamonds + (if added != [] && added[0].user == user then added[0].deltaDiamonds else 0)
    && (WalletOf(db, user).coins >= 0 ==> WalletOf(after, user).coins >= 0)
    && (WalletOf(db, user).diamonds >= 0 ==> WalletOf(after, user).diamonds >= 0)
  }

  lemma ChargeAccounts(db: Db, id: Id, ad: Ad, kind: ChargeKind, startsAt: int, endsAt: int, user: Id)
    ensures Accounts(db, EntriesOf(ChargeEvent(db, id, ad, kind, startsAt, endsAt)),
                     Charge(db, id, ad, kind, startsAt, endsAt).db, user)
    ensures Charge(db, id, ad, kind, startsAt, endsAt).db.events ==
      db.events + [ChargeEvent(db, id, ad, kind, startsAt, endsAt)]
  {
  }

  lemma ApprovalAccounts(db: Db, request: Request, now: int, user: Id)
    requires request.ApproveAd?
    ensures Accounts(db, AddedEntries(db, request, now), Perform(db, request, now).db, user)
  {
    hide Charge, ChargeEvent;
    if Perform(db, request, now).error.None? {
      var revision := request.revision;
      var id := db.revisions[revision].ad;
      var row := db.ads[id].(currentRevision := Some(revision), latestSubmittedRevision := Some(revision));
      var approved := db.(ads := db.ads[id := row], revisions := ApprovedRevisions(db, revision));
      ApprovalKeepsPrice(db, approved, id, revision, now);
      ChargeAccounts(approved, id, row, InitialCharge, now, FirstCycleEnd(now), user);
    }
  }

  // What a charge takes does not depend on which content is approved.
  lemma ApprovalKeepsPrice(db: Db, approved: Db, id: Id, revision: Id, now: int)
    requires id in db.ads && approved == db.(ads := approved.ads, revisions := approved.revisions)
    requires id in approved.ads && approved.ads[id] ==
      db.ads[id].(currentRevision := Some(revision), latestSubmittedRevision := Some(revision))
    ensures ChargeEvent(approved, id, approved.ads[id], InitialCharge, now, FirstCycleEnd(now)) ==
      ChargeEvent(db, id, db.ads[id], InitialCharge, now, FirstCycleEnd(now))
  {
  }

  lemma ActivationAccounts(db: Db, request: Request, now: int, user: Id)
    requires request.RepublishAd? || request.RetryAd?
    ensures Accounts(db, AddedEntries(db, request, now), Perform(db, request, now).db, user)
  {
    hide Charge, ChargeEvent;
    var kind := if request.RepublishAd? then Republish else RetryPayment;
    if request.id in db.ads {
      ChargeAccounts(db, request.id, db.ads[request.id], kind, now, FirstCycleEnd(now), user);
    }
  }

  lemma RenewalAccounts(db: Db, request: Request, now: int, user: Id)
    requires request.RenewAd?
    ensures Accounts(db, AddedEntries(db, request, now), Perform(db, request, now).db, user)
  {
    hide Charge, ChargeEvent;
    if request.id in db.ads && Charges(db.ads[request.id], now) {
      var ad := db.ads[request.id];
      ChargeAccounts(db, request.id, ad, Renewal, ad.nextBillingAt.value, NextCycleEnd(ad), user);
    }
  }

  lemma BoostAccounts(db: Db, request: Request, now: int, user: Id)
    requires request.BoostAd?
    ensures Accounts(db, AddedEntries(db, request, now), Perform(db, request, now).db, user)
  {
  }

  lemma RequestAccounts(db: Db, request: Request, now: int, user: Id)
    ensures Accounts(db, AddedEntries(db, request, now), Perform(db, request, now).db, user)
  {
    match request
    case ApproveAd(_) => ApprovalAccounts(db, request, now, user);
    case RepublishAd(_, _) => ActivationAccounts(db, request, now, user);
    case RetryAd(_, _) => ActivationAccounts(db, request, now, user);
    case RenewAd(_) => RenewalAccounts(db, request, now, user);
    case BoostAd(_, _, _) => BoostAccounts(db, request, now, user);
    case _ =>
  }

  lemma {:induction false} OneMoreEntry(ledger: seq<LedgerEntry>, added: seq<LedgerEntry>, user: Id)
    requires |added| <= 1
    ensures LedgerCoins(ledger + added, user) ==
      LedgerCoins(ledger, user) + (if added != [] && added[0].user == user then added[0].deltaCoins else 0)
    ensures LedgerDiamonds(ledger + added, user) ==
      LedgerDiamonds(ledger, user) + (if added != [] && added[0].user == user then added[0].deltaDiamonds else 0)
  {
    if added == [] {
      assert ledger + added == ledger;
    } else {
      assert (ledger + added)[..|ledger|] == ledger;
    }
  }

  predicate Solvent(wallet: Wallet) {
    wallet.coins >= 0 && wallet.diamonds >= 0
  }

  // Over every run each wallet moves by the sum of its new ledger rows, in both currencies, and is never
  // overdrawn.
  lemma {:induction false} RunBalances(db: Db, calls: seq<Call>, user: Id)
    ensures WalletOf(Run(db, calls), user).coins - WalletOf(db, user).coins ==
      LedgerCoins(Run(db, calls).ledger, user) - LedgerCoins(db.ledger, user)
    ensures WalletOf(Run(db, calls), user).diamonds - WalletOf(db, user).diamonds ==
      LedgerDiamonds(Run(db, calls).ledger, user) - LedgerDiamonds(db.ledger, user)
    ensures Solvent(WalletOf(db, user)) ==> Solvent(WalletOf(Run(db, calls), user))
    decreases |calls|
  {
    hide Perform, AddedEntries;
    if calls != [] {
      var request, at := calls[0].request, calls[0].at;
      RequestAccounts(db, request, at, user);
      OneMoreEntry(db.ledger, AddedEntries(db, request, at), user);
      RunBalances(Step(db, calls[0]), calls[1..], user);
    }
  }

  /* Events and the rows they point to. */

  predicate PriceOk(price: PromoPrice) {
    && price.discount + price.final == price.original && price.discount >= 0 && price.final >= 0
    && price.discountCoins + price.finalCoins == price.originalCoins
  }

  // A successful charge of a positive amount points to a debit of exactly that amount from the same user; a
  // free or a failed one points to none.
  predicate EventOk(ledger: seq<LedgerEntry>, event: BillingEvent) {
    && (event.ledgerRow.Some? <==>
          event.succeeded && (if event.currency == Coins then event.coinAmount else event.diamondAmount) > 0)
    && (event.ledgerRow.Some? ==>
          && event.ledgerRow.value < |ledger|
          && ledger[event.ledgerRow.value] ==
               LedgerEntry(
                 event.user,
                 if event.kind == Renewal then RenewalDebit else if event.kind == Boost then BoostDebit else AdDebit,
                 if event.currency == Coins then -event.coinAmount else 0,
                 if event.currency == Coins then 0 else -event.diamondAmount))
    && (event.details.Monthly? ==>
          && PriceOk(event.details.price)
          && event.diamondAmount == event.details.price.final && event.coinAmount == event.details.price.finalCoins)
  }

  // Events and advertisement debits are matched one to one.
  ghost predicate PaymentsMatch(db: Db) {
    && (forall i :: 0 <= i < |db.events| ==> EventOk(db.ledger, db.events[i]))
    && (forall i, j :: 0 <= i < j < |db.events| && db.events[i].ledgerRow.Some? ==>
          db.events[i].ledgerRow != db.events[j].ledgerRow)
    && (forall k :: 0 <= k < |db.ledger| && db.ledger[k].kind != Credit ==> Explained(db.events, k))
  }

  ghost predicate Explained(events: seq<BillingEvent>, row: nat) {
    exists i :: 0 <= i < |events| && events[i].ledgerRow == Some(row)
  }

  // The event a request adds points to the row it adds.
  lemma AddedEventOk(db: Db, request: Request, now: int)
    ensures
      var added, entries := AddedEvents(db, request, now), AddedEntries(db, request, now);
      && |added| <= 1
      && (added != [] ==>
            && EventOk(db.ledger + entries, added[0])
            && (added[0].ledgerRow.Some? ==> added[0].ledgerRow == Some(|db.ledger|)))
      && (entries != [] && entries[0].kind != Credit ==> added != [] && added[0].ledgerRow == Some(|db.ledger|))
  {
    hide CalculatePromoPrice, FirstCycleEnd, NextCycleEnd, OrElse, CoinRate, BoostStart, ApprovedRevisions, Charge;
  }

  lemma StepKeepsPaymentsMatched(db: Db, call: Call)
    requires PaymentsMatch(db)
    ensures PaymentsMatch(Step(db, call))
  {
    hide Perform, AddedEvents, AddedEntries;
    var after := Step(db, call);
    var added, entries := AddedEvents(db, call.request, call.at), AddedEntries(db, call.request, call.at);
    EventsAreAdded(db, call.request, call.at);
    AddedEventOk(db, call.request, call.at);
    RequestAccounts(db, call.request, call.at, 0);
    assert forall i :: 0 <= i < |db.events| ==> after.events[i] == db.events[i];
    assert forall i :: |db.events| <= i < |after.events| ==> after.events[i] == added[0];
    forall k | 0 <= k < |after.ledger| && after.ledger[k].kind != Credit
      ensures Explained(after.events, k)
    {
      if k < |db.ledger| {
        assert Explained(db.events, k);
        var i :| 0 <= i < |db.events| && db.events[i].ledgerRow == Some(k);
        assert after.events[i].ledgerRow == Some(k);
      } else {
        assert after.events[|db.events|].ledgerRow == Some(k);
      }
    }
  }

  lemma {:induction false} RunKeepsPaymentsMatched(db: Db, calls: seq<Call>)
    requires PaymentsMatch(db)
    ensures PaymentsMatch(Run(db, calls))
    decreases |calls|
  {
    if calls != [] {
      StepKeepsPaymentsMatched(db, calls[0]);
      RunKeepsPaymentsMatched(Step(db, calls[0]), calls[1..]);
    }
  }

  // So in every run from empty tables payments match their events, and balances are the ledger's sums.
  lemma {:induction false} ReachablePaymentsMatch(settings: Settings, calls: seq<Call>, user: Id)
    ensures var end := Run(EmptyDb(settings), calls);
            && PaymentsMatch(end) && Solvent(WalletOf(end, user))
            && WalletOf(end, user) == Wallet(LedgerCoins(end.ledger, user), LedgerDiamonds(end.ledger, user))
  {
    RunKeepsPaymentsMatched(EmptyDb(settings), calls);
    RunBalances(EmptyDb(settings), calls, user);
  }

  // Rollback: a request that reports an error has changed nothing, in any table.
  lemma ErrorsChangeNothing(db: Db, request: Request, now: int)
    requires Perform(db, request, now).error.Some?
    ensures Perform(db, request, now).db == db
  {
  }
}
