/** The advertisement services, statement by statement, proved to do what AdModel.dfy says. */
module AdServices {
  import opened Wrappers
  import opened Calendar
  import opened AdModel
  import opened AdRenewals

  class Tables {
    var settings: Settings
    var ads: map<Id, Ad>
    var revisions: map<Id, Revision>
    var wallets: map<Id, Wallet>
    var ledger: seq<LedgerEntry>
    var events: seq<BillingEvent>

    constructor (db: Db)
      ensures Value() == db
    {
      settings, ads, revisions, wallets, ledger, events :=
        db.settings, db.ads, db.revisions, db.wallets, db.ledger, db.events;
    }

    function Value(): Db
      reads this
    {
      Db(settings, ads, revisions, wallets, ledger, events)
    }

    // Rolls a transaction back.
    method Restore(saved: Db)
      modifies this
      ensures Value() == saved
    {
      settings, ads, revisions, wallets, ledger, events :=
        saved.settings, saved.ads, saved.revisions, saved.wallets, saved.ledger, saved.events;
    }
  }

  class AdvertisementsService {
    const tables: Tables

    constructor (tables: Tables)
      ensures this.tables == tables
    {
      this.tables := tables;
    }

    method EnsureWallet(user: Id) returns (wallet: Wallet)
      modifies tables`wallets
      ensures wallet == WalletOf(old(tables.Value()), user)
      ensures tables.wallets == old(tables.wallets)[user := wallet]
    {
      if user !in tables.wallets {
        tables.wallets := tables.wallets[user := Wallet(0, 0)];
      }
      wallet := tables.wallets[user];
      assert tables.wallets[user := wallet] == tables.wallets;
    }

    // Takes a positive amount from a wallet that holds it, and writes the ledger row.
    method DebitWallet(user: Id, kind: LedgerKind, currency: Currency, amount: int) returns (ledgerRow: nat)
      requires user in tables.wallets && amount > 0
      modifies tables`wallets, tables`ledger
      ensures tables.Value() == Pay(old(tables.Value()), user, kind, currency, amount)
      ensures ledgerRow == |old(tables.ledger)|
    {
      var useCoins, wallet := currency == Coins, tables.wallets[user];
      tables.wallets := tables.wallets[user :=
        if useCoins then wallet.(coins := wallet.coins - amount) else wallet.(diamonds := wallet.diamonds - amount)];
      ledgerRow := |tables.ledger|;
      tables.ledger := tables.ledger +
        [LedgerEntry(user, kind, if useCoins then -amount else 0, if useCoins then 0 else -amount)];
    }

    method ChargeAdvertisement(id: Id, ad: Ad, kind: ChargeKind, startsAt: int, endsAt: int)
      returns (error: Option<Error>)
      modifies tables
      ensures tables.Value() == Charge(old(tables.Value()), id, ad, kind, startsAt, endsAt).db
      ensures error
           == if Charge(old(tables.Value()), id, ad, kind, startsAt, endsAt).paid then None else Some(Forbidden)
    {
      var settings := tables.settings;
      var coinToDiamondRate := Max(1, OrElse(settings.coinToDiamondRate, 2));
      var baseDiamondAmount := Max(1, OrElse(OrElse(ad.monthlyDiamondPrice, settings.monthlyDiamondPrice), 250));
      var promo := CalculatePromoPrice(baseDiamondAmount, settings, startsAt);
      var diamondAmount := promo.final;
      var coinAmount := diamondAmount * coinToDiamondRate;
      var useCoins := ad.currency == Coins;
      var event := BillingEvent(id, ad.owner, kind, true, ad.currency, diamondAmount, coinAmount, None,
                                startsAt, endsAt,
                                Monthly(promo));
      var wallet := EnsureWallet(ad.owner);
      if useCoins && coinAmount > 0 && wallet.coins < coinAmount {
        tables.events := tables.events + [event.(succeeded := false)];
        return Some(Forbidden);
      }
      if !useCoins && diamondAmount > 0 && wallet.diamonds < diamondAmount {
        tables.events := tables.events + [event.(succeeded := false)];
        return Some(Forbidden);
      }
      var shouldDebitWallet := if useCoins then coinAmount > 0 else diamondAmount > 0;
      var ledgerRow := None;
      if shouldDebitWallet {
        var amount := if useCoins then coinAmount else diamondAmount;
        var row := DebitWallet(ad.owner, LedgerKindOf(kind), ad.currency, amount);
        ledgerRow := Some(row);
      }
      tables.events := tables.events + [event.(ledgerRow := ledgerRow)];
      error := None;
    }

    method ActivateApprovedAdvertisement(id: Id, kind: ChargeKind, now: int) returns (error: Option<Error>)
      modifies tables
      ensures Outcome(tables.Value(), error) == Activate(old(tables.Value()), id, kind, now)
    {
      if id !in tables.ads {
        return Some(NotFound);
      }
      var ad := tables.ads[id];
      if ad.currentRevision.None? {
        return Some(BadRequest);
      }
      var anchorDay := GetUtcDate(now);
      var cycleEndsAt := AddMonthsWithAnchor(now, 1, anchorDay);
      error := ChargeAdvertisement(id, ad, kind, now, cycleEndsAt);
      if error.Some? {
        tables.ads := tables.ads[id := tables.ads[id].(status := PaymentFailed)];
        return;
      }
      var remainingCycles := if ad.requestedCycles.None? then None else Some(Max(0, ad.requestedCycles.value - 1));
      tables.ads := tables.ads[id := tables.ads[id].(
        status := Live,
        anchorDay := Some(anchorDay),
        cycleStartedAt := Some(now),
        cycleEndsAt := Some(cycleEndsAt),
        nextBillingAt := if remainingCycles == Some(0) then None else Some(cycleEndsAt),
        remainingCycles := remainingCycles,
        lastBilledAt := Some(now),
        cancelAtCycleEnd := false)];
    }

    method CreateAdvertisement(user: Id, id: Id, revision: Id, body: Body) returns (error: Option<Error>)
      modifies tables
      ensures Outcome(tables.Value(), error)
           == AdModel.CreateAdvertisement(old(tables.Value()), user, id, revision, body)
    {
      error := BodyError(body, tables.settings);
      if error.Some? {
        return;
      }
      var monthlyDiamondPrice := OrElse(tables.settings.monthlyDiamondPrice, 250);
      var saved := tables.Value();
      if id in tables.ads {
        return Some(UniqueViolation);
      }
      tables.ads := tables.ads[id :=
        Ad(user, PendingReview, None, None, body.currency, monthlyDiamondPrice, RequestedCycles(body.requestedDuration),
           None, None, None, None, None, None, false, None, None)];
      if revision in tables.revisions {
        tables.Restore(saved);
        return Some(UniqueViolation);
      }
      tables.revisions := tables.revisions[revision := Revision(id, Submitted, 1)];
      tables.ads := tables.ads[id := tables.ads[id].(latestSubmittedRevision := Some(revision))];
      assert tables.ads == saved.ads[id := NewAd(user, revision, body, saved.settings)];
    }

    method UpdateAdvertisement(user: Id, id: Id, revision: Id, body: Body) returns (error: Option<Error>)
      modifies tables
      ensures Outcome(tables.Value(), error)
           == AdModel.UpdateAdvertisement(old(tables.Value()), user, id, revision, body)
    {
      if !(id in tables.ads && tables.ads[id].owner == user) {
        return Some(NotFound);
      }
      var ad := tables.ads[id];
      if exists r :: r in tables.revisions && tables.revisions[r].ad == id && tables.revisions[r].status == Submitted {
        return Some(BadRequest);
      }
      error := BodyError(body, tables.settings);
      if error.Some? {
        return;
      }
      var nextVersion := |RevisionsOf(tables.Value(), id)|;
      if revision in tables.revisions {
        return Some(UniqueViolation);
      }
      tables.revisions := tables.revisions[revision := Revision(id, Submitted, nextVersion + 1)];
      tables.ads := tables.ads[id := tables.ads[id].(
        latestSubmittedRevision := Some(revision),
        status := if ad.currentRevision.Some? then ad.status else PendingReview,
        currency := body.currency,
        requestedCycles := RequestedCycles(body.requestedDuration))];
    }

    method BoostAdvertisement(user: Id, id: Id, choice: Option<Currency>, now: int) returns (error: Option<Error>)
      modifies tables
      ensures Outcome(tables.Value(), error) == AdModel.BoostAdvertisement(old(tables.Value()), user, id, choice, now)
    {
      var saved, settings := tables.Value(), tables.settings;
      if !settings.boostEnabled {
        return Some(Forbidden);
      }
      if !(id in tables.ads && tables.ads[id].owner == user) {
        return Some(NotFound);
      }
      var ad := tables.ads[id];
      if ad.status != Live {
        return Some(BadRequest);
      }
      if ad.currentRevision.None? {
        return Some(BadRequest);
      }
      var boostDurationHours := Max(1, OrElse(settings.boostDurationHours, 24));
      var boostDiamondPrice := Max(1, OrElse(settings.boostDiamondPrice, 100));
      var boostCoinPrice := boostDiamondPrice * CoinRate(settings);
      var currency := if choice.Some? then choice.value else ad.currency;
      var useCoins := currency == Coins;
      ghost var sold := BoostEvent(saved, user, id, ad, choice, now);
      assert sold.currency == currency && sold.Charge() == (if useCoins then boostCoinPrice else boostDiamondPrice);
      hide Max, OrElse, CoinRate, AddHours;
      var event := BillingEvent(id, user, Boost, true, currency, boostDiamondPrice, boostCoinPrice, None, now,
                                AddHours(now, boostDurationHours), BoostWindow(now, boostDurationHours));
      var wallet := EnsureWallet(user);
      PaysFromEnsured(saved, user, BoostDebit, currency, if useCoins then boostCoinPrice else boostDiamondPrice);
      hide Pay, WalletOf;
      if useCoins && wallet.coins < boostCoinPrice {
        tables.events := tables.events + [event.(succeeded := false)];
        tables.Restore(saved);
        return Some(Forbidden);
      }
      if !useCoins && wallet.diamonds < boostDiamondPrice {
        tables.events := tables.events + [event.(succeeded := false)];
        tables.Restore(saved);
        return Some(Forbidden);
      }
      var ledgerRow := DebitWallet(user, BoostDebit, currency, if useCoins then boostCoinPrice else boostDiamondPrice);
      var boostStartsAt := if ad.boostedUntil.Some? && ad.boostedUntil.value > now then ad.boostedUntil.value else now;
      var boostedUntil := AddHours(boostStartsAt, boostDurationHours);
      event := event.(ledgerRow := Some(ledgerRow), endsAt := boostedUntil,
                      details := BoostWindow(boostStartsAt, boostDurationHours));
      assert event == sold;
      hide BoostEvent;
      tables.events := tables.events + [event];
      tables.ads := tables.ads[id := tables.ads[id].(boostedUntil := Some(boostedUntil), lastBoostedAt := Some(now))];
      error := None;
    }

    method CancelAtCycleEnd(user: Id, id: Id) returns (error: Option<Error>)
      modifies tables
      ensures Outcome(tables.Value(), error) == AdModel.CancelAtCycleEnd(old(tables.Value()), user, id)
    {
      if !(id in tables.ads && tables.ads[id].owner == user) {
        return Some(NotFound);
      }
      var ad := tables.ads[id];
      if ad.status != Live && ad.status != PaymentFailed {
        return Some(BadRequest);
      }
      tables.ads := tables.ads[id :=
        if ad.status == Live then ad.(status := CancelledEnding, cancelAtCycleEnd := true, nextBillingAt := None)
        else ad.(status := Inactive, cancelAtCycleEnd := false, nextBillingAt := None)];
      error := None;
    }

    method Republish(user: Id, id: Id, now: int) returns (error: Option<Error>)
      modifies tables
      ensures Outcome(tables.Value(), error) == RepublishAdvertisement(old(tables.Value()), user, id, now)
    {
      var saved := tables.Value();
      if !(id in tables.ads && tables.ads[id].owner == user) {
        return Some(NotFound);
      }
      var ad := tables.ads[id];
      if ad.currentRevision.None? {
        return Some(BadRequest);
      }
      if ad.status !in {Inactive, Expired, PaymentFailed} {
        return Some(BadRequest);
      }
      error := ActivateApprovedAdvertisement(id, ChargeKind.Republish, now);
      if error.Some? {
        tables.Restore(saved);
      }
    }

    method RetryPayment(user: Id, id: Id, now: int) returns (error: Option<Error>)
      modifies tables
      ensures Outcome(tables.Value(), error) == RetryAdPayment(old(tables.Value()), user, id, now)
    {
      var saved := tables.Value();
      if !(id in tables.ads && tables.ads[id].owner == user) {
        return Some(NotFound);
      }
      if tables.ads[id].currentRevision.None? {
        return Some(BadRequest);
      }
      error := ActivateApprovedAdvertisement(id, ChargeKind.RetryPayment, now);
      if error.Some? {
        tables.Restore(saved);
      }
    }

    // The query of the renewal job.
    method FindDue(now: int, limit: nat) returns (ids: seq<Id>)
      ensures Selects(tables.Value(), now, limit, ids) && EarliestFirst(tables.Value(), now, ids)
    {
      var ads := tables.ads;
      var due := set id | id in ads && Due(ads[id], now);
      assert due == DueIds(tables.Value(), now);
      hide Due, BilledBefore, Selects, EarliestFirst;
      assert Picked(ads, due, [], due);
      hide Picked;
      var rest := due;
      ids := [];
      while rest != {} && |ids| < limit
        invariant rest <= due <= ads.Keys && |ids| <= limit && Picked(ads, due, ids, rest)
        decreases rest
      {
        ghost var first := SomeEarliest(ads, rest);
        var id :| id in rest && forall other :: other in rest ==> !BilledBefore(ads[other], ads[id]);
        PickNext(ads, due, ids, rest, id);
        ids := ids + [id];
        rest := rest - {id};
      }
      PickedIsSelected(tables.Value(), now, limit, ids, rest);
    }

    // The transaction of the renewal job for one selected advertisement.
    method RenewOne(id: Id, now: int) returns (effect: RenewalEffect)
      modifies tables
      ensures tables.Value() == RenewAdvertisement(old(tables.Value()), id, now).db
      ensures effect == RenewAdvertisement(old(tables.Value()), id, now).effect
    {
      hide CalculatePromoPrice, AddMonthsWithAnchor, GetUtcDate, Charge, MonthlyPrice;
      if id !in tables.ads {
        return Untouched;
      }
      var current := tables.ads[id];
      if current.status == CancelledEnding && current.cycleEndsAt.Some? && current.cycleEndsAt.value <= now {
        tables.ads := tables.ads[id := current.(status := Inactive, cancelAtCycleEnd := false, nextBillingAt := None)];
        return Ended;
      }
      if current.status == Live && current.remainingCycles == Some(0) && current.cycleEndsAt.Some?
          && current.cycleEndsAt.value <= now {
        tables.ads := tables.ads[id := current.(status := Expired, nextBillingAt := None)];
        return Ended;
      }
      if current.status != Live || current.nextBillingAt.None? || current.nextBillingAt.value > now {
        return Untouched;
      }
      var anchorDay :=
        if current.anchorDay.Some? && current.anchorDay.value != 0 then current.anchorDay.value
        else GetUtcDate(current.nextBillingAt.value);
      var cycleStartedAt := current.nextBillingAt.value;
      var cycleEndsAt := AddMonthsWithAnchor(cycleStartedAt, 1, anchorDay);
      var error := ChargeAdvertisement(id, current, Renewal, cycleStartedAt, cycleEndsAt);
      if error.None? {
        var nextRemaining :=
          if current.remainingCycles.None? then None else Some(Max(0, current.remainingCycles.value - 1));
        tables.ads := tables.ads[id := tables.ads[id].(
          cycleStartedAt := Some(cycleStartedAt),
          cycleEndsAt := Some(cycleEndsAt),
          nextBillingAt := if nextRemaining == Some(0) then None else Some(cycleEndsAt),
          remainingCycles := nextRemaining,
          lastBilledAt := Some(now))];
        effect := Renewed;
      } else {
        tables.ads := tables.ads[id := tables.ads[id].(status := PaymentFailed, nextBillingAt := None)];
        effect := Failed;
      }
    }

    method ProcessDueRenewals(limit: nat, now: int)
      returns (processed: nat, renewed: nat, expired: nat, failed: nat, ghost ids: seq<Id>)
      modifies tables
      ensures Selects(old(tables.Value()), now, limit, ids) && EarliestFirst(old(tables.Value()), now, ids)
      ensures processed == |ids|
      ensures tables.Value() == RenewAll(old(tables.Value()), ids, now)
      ensures renewed == Tally(old(tables.Value()), ids, now, Renewed)
      ensures expired == Tally(old(tables.Value()), ids, now, Ended)
      ensures failed == Tally(old(tables.Value()), ids, now, Failed)
    {
      var selected := FindDue(now, limit);
      ids, processed, renewed, expired, failed := selected, |selected|, 0, 0, 0;
      ghost var before := tables.Value();
      for i := 0 to |selected|
        invariant RenewAll(tables.Value(), selected[i..], now) == RenewAll(before, selected, now)
        invariant renewed + Tally(tables.Value(), selected[i..], now, Renewed) == Tally(before, selected, now, Renewed)
        invariant expired + Tally(tables.Value(), selected[i..], now, Ended) == Tally(before, selected, now, Ended)
        invariant failed + Tally(tables.Value(), selected[i..], now, Failed) == Tally(before, selected, now, Failed)
      {
        assert selected[i..][1..] == selected[i + 1..];
        var effect := RenewOne(selected[i], now);
        match effect
        case Renewed => renewed := renewed + 1;
        case Ended => expired := expired + 1;
        case Failed => failed := failed + 1;
        case Untouched =>
      }
    }
  }

  // How many of the transactions, in turn, have the given effect.
  function Tally(db: Db, ids: seq<Id>, now: int, effect: RenewalEffect): nat
    decreases |ids|
  {
    if ids == [] then 0
    else
      var first := RenewAdvertisement(db, ids[0], now);
      (if first.effect == effect then 1 else 0) + Tally(first.db, ids[1..], now, effect)
  }

  class AdminAdvertisementsService {
    const tables: Tables
    const advertisements: AdvertisementsService

    constructor (tables: Tables, advertisements: AdvertisementsService)
      requires advertisements.tables == tables
      ensures this.tables == tables && this.advertisements == advertisements
    {
      this.tables, this.advertisements := tables, advertisements;
    }

    method ApproveRevision(revision: Id, now: int) returns (error: Option<Error>)
      requires advertisements.tables == tables
      modifies tables
      ensures Outcome(tables.Value(), error) == AdModel.ApproveRevision(old(tables.Value()), revision, now)
    {
      if revision !in tables.revisions || tables.revisions[revision].ad !in tables.ads {
        return Some(NotFound);
      }
      if tables.revisions[revision].status != Submitted {
        return Some(BadRequest);
      }
      var id := tables.revisions[revision].ad;
      var ad := tables.ads[id];
      var alreadyHadApprovedContent := ad.currentRevision.Some?;
      tables.revisions := tables.revisions[revision := tables.revisions[revision].(status := Approved)];
      if ad.currentRevision.Some? && ad.currentRevision.value != revision {
        var revisions := tables.revisions;
        tables.revisions := map r | r in revisions ::
          if revisions[r].ad == id && r != revision && revisions[r].status == Approved then
            revisions[r].(status := Superseded)
          else revisions[r];
      }
      assert tables.revisions == ApprovedRevisions(old(tables.Value()), revision);
      tables.ads := tables.ads[id :=
        ad.(currentRevision := Some(revision), latestSubmittedRevision := Some(revision))];
      if !alreadyHadApprovedContent {
        var _ := advertisements.ActivateApprovedAdvertisement(id, InitialCharge, now);
      }
      error := None;
    }

    method DenyRevision(revision: Id, hasReason: bool) returns (error: Option<Error>)
      modifies tables
      ensures Outcome(tables.Value(), error) == AdModel.DenyRevision(old(tables.Value()), revision, hasReason)
    {
      if !hasReason {
        return Some(BadRequest);
      }
      if revision !in tables.revisions || tables.revisions[revision].ad !in tables.ads {
        return Some(NotFound);
      }
      if tables.revisions[revision].status != Submitted {
        return Some(BadRequest);
      }
      var id := tables.revisions[revision].ad;
      tables.revisions := tables.revisions[revision := tables.revisions[revision].(status := Refused)];
      tables.ads := tables.ads[id := tables.ads[id].(
        status := if tables.ads[id].currentRevision.Some? then tables.ads[id].status else Denied)];
      error := None;
    }

    method PauseAdvertisement(id: Id, hasReason: bool) returns (error: Option<Error>)
      modifies tables
      ensures Outcome(tables.Value(), error) == AdModel.PauseAdvertisement(old(tables.Value()), id, hasReason)
    {
      if !hasReason {
        return Some(BadRequest);
      }
      if id !in tables.ads {
        return Some(NotFound);
      }
      tables.ads := tables.ads[id := tables.ads[id].(status := AdminPaused, nextBillingAt := None)];
      error := None;
    }

    method ResumeAdvertisement(id: Id, now: int) returns (error: Option<Error>)
      modifies tables
      ensures Outcome(tables.Value(), error) == AdModel.ResumeAdvertisement(old(tables.Value()), id, now)
    {
      if id !in tables.ads {
        return Some(NotFound);
      }
      var ad := tables.ads[id];
      if ad.currentRevision.None? {
        return Some(BadRequest);
      }
      var nextStatus := if ad.cycleEndsAt.Some? && ad.cycleEndsAt.value > now then Live else Inactive;
      tables.ads := tables.ads[id := ad.(
        status := nextStatus,
        nextBillingAt := if nextStatus == Live && !ad.cancelAtCycleEnd then ad.cycleEndsAt else None)];
      error := None;
    }
  }

  // The timer's driver: a run that starts while another is under way does nothing.
  class AdvertisementRenewalService {
    const advertisements: AdvertisementsService
    var running: bool

    constructor (advertisements: AdvertisementsService)
      ensures this.advertisements == advertisements && !running
    {
      this.advertisements, running := advertisements, false;
    }

    method RunOnce(now: int) returns (skipped: bool, processed: nat, ghost ids: seq<Id>)
      modifies this`running, advertisements.tables
      ensures running == old(running) == skipped
      ensures skipped ==> advertisements.tables.Value() == old(advertisements.tables.Value()) && processed == 0
      ensures !skipped ==>
        && Selects(old(advertisements.tables.Value()), now, 100, ids) && processed == |ids|
        && advertisements.tables.Value() == RenewAll(old(advertisements.tables.Value()), ids, now)
    {
      if running {
        return true, 0, [];
      }
      running := true;
      var renewed, expired, failed;
      processed, renewed, expired, failed, ids := advertisements.ProcessDueRenewals(100, now);
      running := false;
      skipped := false;
    }
  }
}
