/** What a month and a boost cost, in the numbers of the settings, and that the owner pays exactly that. */
module AdPrices {
  import opened Wrappers
  import opened AdModel
  import opened AdLifecycle
  import opened AdMoney
  import opened Calendar

  // The promotion is switched off, not begun or over at the start of the month.
  predicate NoPromotion(s: Settings, startsAt: int) {
    || !s.promoEnabled
    || (s.promoStartsAt.Some? && startsAt < s.promoStartsAt.value)
    || (s.promoEndsAt.Some? && s.promoEndsAt.value < startsAt)
  }

  // A price of 250 stands for none, and no month is free before a discount.
  function ListPrice(monthly: int): int {
    if monthly == 0 then 250 else if monthly < 1 then 1 else monthly
  }

  // Two coins to the diamond where the settings name no rate, and never less than one.
  function CoinsPerDiamond(s: Settings): int {
    if s.coinToDiamondRate == 0 then 2 else if s.coinToDiamondRate < 1 then 1 else s.coinToDiamondRate
  }

  // A month at a list price: full outside a promotion; in one free, or less a fixed amount, or less a percentage
  // rounded down.
  ghost predicate Costs(event: BillingEvent, list: int, s: Settings) {
    && event.details.Monthly? && event.details.price.original == list
    && event.coinAmount == event.diamondAmount * CoinsPerDiamond(s)
    && if NoPromotion(s, event.startsAt) then event.diamondAmount == list
       else if s.promoFreeAdCreation then event.diamondAmount == 0
       else if s.promoDiscountType == FixedDiamonds then
         event.diamondAmount == Max(0, list - Max(0, s.promoDiscountValue))
       else
         var share := 100 - Min(100, Max(0, s.promoDiscountValue));
         100 * event.diamondAmount >= list * share > 100 * (event.diamondAmount - 1)
  }

  lemma ChargeCosts(db: Db, id: Id, ad: Ad, kind: ChargeKind, startsAt: int, endsAt: int)
    requires ad.monthlyDiamondPrice != 0
    ensures Costs(ChargeEvent(db, id, ad, kind, startsAt, endsAt), ListPrice(ad.monthlyDiamondPrice), db.settings)
  {
    hide CalculatePromoPrice;
    assert CoinRate(db.settings) == CoinsPerDiamond(db.settings);
    assert PromoActive(db.settings, startsAt) <==> !NoPromotion(db.settings, startsAt);
  }

  // What the owner's wallet holds of a currency.
  function Holds(db: Db, user: Id, currency: Currency): int {
    if user !in db.wallets then 0
    else if currency == Coins then db.wallets[user].coins else db.wallets[user].diamonds
  }

  function Amount(event: BillingEvent): int {
    if event.currency == Coins then event.coinAmount else event.diamondAmount
  }

  function Other(currency: Currency): Currency {
    if currency == Coins then Diamonds else Coins
  }

  // The payer has a wallet from then on, which loses exactly what a successful event says, in its currency and no
  // other; a charge succeeds exactly when it is free or covered.
  ghost predicate Takes(before: Db, event: BillingEvent, after: Db) {
    && (event.succeeded <==> Amount(event) <= 0 || Amount(event) <= Holds(before, event.user, event.currency))
    && Holds(after, event.user, event.currency)
       == Holds(before, event.user, event.currency)
          - (if event.succeeded && Amount(event) > 0 then Amount(event) else 0)
    && Holds(after, event.user, Other(event.currency)) == Holds(before, event.user, Other(event.currency))
    && after.wallets.Keys == before.wallets.Keys + {event.user}
    && forall user, currency :: user != event.user ==> Holds(after, user, currency) == Holds(before, user, currency)
  }

  lemma ChargeTakes(db: Db, id: Id, ad: Ad, kind: ChargeKind, startsAt: int, endsAt: int)
    ensures Takes(db, ChargeEvent(db, id, ad, kind, startsAt, endsAt), Charge(db, id, ad, kind, startsAt, endsAt).db)
  {
    hide CalculatePromoPrice;
  }

  // The occasion of a charge.
  predicate IsKindOf(kind: ChargeKind, request: Request) {
    match request
    case ApproveAd(_) => kind == InitialCharge
    case RepublishAd(_, _) => kind == Republish
    case RetryAd(_, _) => kind == RetryPayment
    case RenewAd(_) => kind == Renewal
    case BoostAd(_, _, _) => kind == Boost
    case _ => false
  }

  // The event a request adds is charged to the owner, in the advertisement's currency, for the request's occasion.
  ghost predicate IsCharged(db: Db, request: Request, event: BillingEvent, after: Db)
    requires event.ad in db.ads
  {
    var ad := db.ads[event.ad];
    && event.user == ad.owner && event.currency == ad.currency && IsKindOf(event.kind, request)
    && Costs(event, ListPrice(ad.monthlyDiamondPrice), db.settings) && Takes(db, event, after)
  }

  lemma TakesOnlyFromWallets(db: Db, event: BillingEvent, paid: Db, other: Db, after: Db)
    requires Takes(db, event, paid) && other.wallets == db.wallets && after.wallets == paid.wallets
    ensures Takes(other, event, after)
  {
    hide Amount;
    assert forall user, currency :: Holds(other, user, currency) == Holds(db, user, currency);
    assert forall user, currency :: Holds(after, user, currency) == Holds(paid, user, currency);
  }

  lemma ApprovalIsCharged(db: Db, request: Request, now: int)
    requires request.ApproveAd? && AddedEvents(db, request, now) != []
    requires var id := AddedEvents(db, request, now)[0].ad; id in db.ads ==> db.ads[id].monthlyDiamondPrice != 0
    ensures var event := AddedEvents(db, request, now)[0];
            event.ad in db.ads && IsCharged(db, request, event, Perform(db, request, now).db)
  {
    hide Charge, ChargeEvent, Costs, Takes;
    var revision := request.revision;
    var id := db.revisions[revision].ad;
    assert AddedEvents(db, request, now)[0].ad == id by { EventOfCharge(db, id, db.ads[id], InitialCharge, now); }
    var row := db.ads[id].(currentRevision := Some(revision), latestSubmittedRevision := Some(revision));
    var approved := db.(ads := db.ads[id := row], revisions := ApprovedRevisions(db, revision));
    EventOfCharge(db, id, db.ads[id], InitialCharge, now);
    ApprovalKeepsPrice(db, approved, id, revision, now);
    ChargeCosts(db, id, db.ads[id], InitialCharge, now, FirstCycleEnd(now));
    ChargeTakes(approved, id, row, InitialCharge, now, FirstCycleEnd(now));
    TakesOnlyFromWallets(approved, ChargeEvent(db, id, db.ads[id], InitialCharge, now, FirstCycleEnd(now)),
                         Charge(approved, id, row, InitialCharge, now, FirstCycleEnd(now)).db, db,
                         Perform(db, request, now).db);
  }

  lemma EventOfCharge(db: Db, id: Id, ad: Ad, kind: ChargeKind, now: int)
    ensures var event := ChargeEvent(db, id, ad, kind, now, FirstCycleEnd(now));
            event.ad == id && event.user == ad.owner && event.currency == ad.currency && event.kind == kind
  {
  }

  lemma ActivationIsCharged(db: Db, request: Request, now: int)
    requires (request.RepublishAd? || request.RetryAd?) && AddedEvents(db, request, now) != []
    requires var id := AddedEvents(db, request, now)[0].ad; id in db.ads ==> db.ads[id].monthlyDiamondPrice != 0
    ensures var event := AddedEvents(db, request, now)[0];
            event.ad in db.ads && IsCharged(db, request, event, Perform(db, request, now).db)
  {
    hide Charge, ChargeEvent, Costs, Takes;
    var id, kind := request.id, if request.RepublishAd? then Republish else RetryPayment;
    var ad := db.ads[id];
    EventOfCharge(db, id, ad, kind, now);
    ChargeCosts(db, id, ad, kind, now, FirstCycleEnd(now));
    ChargeTakes(db, id, ad, kind, now, FirstCycleEnd(now));
    TakesOnlyFromWallets(db, ChargeEvent(db, id, ad, kind, now, FirstCycleEnd(now)),
                         Charge(db, id, ad, kind, now, FirstCycleEnd(now)).db, db, Perform(db, request, now).db);
  }

  lemma RenewalIsCharged(db: Db, request: Request, now: int)
    requires request.RenewAd? && AddedEvents(db, request, now) != []
    requires var id := AddedEvents(db, request, now)[0].ad; id in db.ads ==> db.ads[id].monthlyDiamondPrice != 0
    ensures var event := AddedEvents(db, request, now)[0];
            event.ad in db.ads && IsCharged(db, request, event, Perform(db, request, now).db)
  {
    hide CalculatePromoPrice, Costs, Takes, Pay, NextCycleEnd;
    var id := request.id;
    var ad := db.ads[id];
    var startsAt, endsAt := ad.nextBillingAt.value, NextCycleEnd(ad);
    ChargeCosts(db, id, ad, Renewal, startsAt, endsAt);
    ChargeTakes(db, id, ad, Renewal, startsAt, endsAt);
    TakesOnlyFromWallets(db, ChargeEvent(db, id, ad, Renewal, startsAt, endsAt),
                         Charge(db, id, ad, Renewal, startsAt, endsAt).db, db, Perform(db, request, now).db);
  }

  // Each charge for a month, successful or not: at the price of the advertisement, whatever the settings ask of new
  // ones, and from the wallet of its owner.
  lemma EveryMonthIsCharged(db: Db, call: Call)
    requires |Step(db, call).events| > |db.events| && !call.request.BoostAd?
    requires var id := Step(db, call).events[|db.events|].ad; id in db.ads ==> db.ads[id].monthlyDiamondPrice != 0
    ensures
      var event := Step(db, call).events[|db.events|];
      event.ad in db.ads && IsCharged(db, call.request, event, Step(db, call))
  {
    EventsAreAdded(db, call.request, call.at);
    hide IsCharged, Perform, ChargeEvent;
    match call.request
    case ApproveAd(_) => ApprovalIsCharged(db, call.request, call.at);
    case RepublishAd(_, _) => ActivationIsCharged(db, call.request, call.at);
    case RetryAd(_, _) => ActivationIsCharged(db, call.request, call.at);
    case RenewAd(_) => RenewalIsCharged(db, call.request, call.at);
    case _ =>
  }

  /* Boosts. */

  // 100 diamonds and 24 hours where the settings name none, and at least one of each.
  function BoostPrice(s: Settings): int {
    if s.boostDiamondPrice == 0 then 100 else if s.boostDiamondPrice < 1 then 1 else s.boostDiamondPrice
  }

  function BoostHours(s: Settings): int {
    if s.boostDurationHours == 0 then 24 else if s.boostDurationHours < 1 then 1 else s.boostDurationHours
  }

  // A boost is sold at the settings' price for the settings' hours, in the currency chosen or else the
  // advertisement's, to its owner, and runs from now or from the end of the boost that is still running.
  lemma EveryBoostIsCharged(db: Db, user: Id, id: Id, choice: Option<Currency>, now: int)
    requires BoostAdvertisement(db, user, id, choice, now).error.None?
    ensures id in db.ads && |BoostAdvertisement(db, user, id, choice, now).db.events| == |db.events| + 1
    ensures
      var after := BoostAdvertisement(db, user, id, choice, now).db;
      var ad, event := db.ads[id], after.events[|db.events|];
      var start := if ad.boostedUntil.Some? && now < ad.boostedUntil.value then ad.boostedUntil.value else now;
      && event.ad == id && event.user == user == ad.owner && event.succeeded && event.kind == Boost
      && event.currency == (if choice.Some? then choice.value else ad.currency)
      && event.diamondAmount == BoostPrice(db.settings)
      && event.coinAmount == BoostPrice(db.settings) * CoinsPerDiamond(db.settings)
      && event.startsAt == now && event.details == BoostWindow(start, BoostHours(db.settings))
      && event.endsAt == start + 3_600_000 * BoostHours(db.settings)
      && after.ads == db.ads[id := ad.(boostedUntil := Some(event.endsAt), lastBoostedAt := Some(now))]
      && Takes(db, event, after)
  {
    var ad := db.ads[id];
    var event := BoostEvent(db, user, id, ad, choice, now);
    assert CoinRate(db.settings) == CoinsPerDiamond(db.settings);
    BoostTakes(db, user, event);
    hide Pay, CoinRate, BoostEvent, Takes;
    TakesOnlyFromWallets(db, event, Pay(db, user, BoostDebit, event.currency, event.Charge()), db,
                         BoostAdvertisement(db, user, id, choice, now).db);
  }

  lemma BoostTakes(db: Db, user: Id, event: BillingEvent)
    requires event.user == user && event.succeeded && CanPay(db, user, event.currency, event.Charge())
    ensures Takes(db, event, Pay(db, user, BoostDebit, event.currency, event.Charge()))
  {
  }
}
