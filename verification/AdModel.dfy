/** The advertisement tables and what each request does to them.

    A request is described by the whole state of the tables it commits and the error it reports, if any.
    The services in AdServices.dfy are proved to have exactly these effects. */
module AdModel {
  import opened Wrappers
  import opened Calendar

  type Id = nat // stands for a database UUID

  datatype AdStatus =
    | PendingReview
    | Denied
    | Live
    | CancelledEnding
    | Inactive
    | Expired
    | PaymentFailed
    | AdminPaused

  datatype RevisionStatus = Submitted | Approved | Refused | Superseded

  datatype Currency = Diamonds | Coins

  datatype ChargeKind = InitialCharge | Renewal | Republish | RetryPayment | Boost

  datatype LedgerKind = AdDebit | RenewalDebit | BoostDebit | Credit

  datatype DiscountType = Percent | FixedDiamonds

  datatype Settings = Settings(
    enabled: bool,
    allowedCurrencies: set<Currency>,
    monthlyDiamondPrice: int,
    coinToDiamondRate: int,
    boostEnabled: bool,
    boostDurationHours: int,
    boostDiamondPrice: int,
    promoEnabled: bool,
    promoFreeAdCreation: bool,
    promoDiscountType: DiscountType,
    promoDiscountValue: int,
    promoStartsAt: Option<int>,
    promoEndsAt: Option<int>)

  datatype Ad = Ad(
    owner: Id,
    status: AdStatus,
    currentRevision: Option<Id>,
    latestSubmittedRevision: Option<Id>,
    currency: Currency,
    monthlyDiamondPrice: int,
    requestedCycles: Option<int>,
    remainingCycles: Option<int>,
    anchorDay: Option<int>,
    cycleStartedAt: Option<int>,
    cycleEndsAt: Option<int>,
    nextBillingAt: Option<int>,
    lastBilledAt: Option<int>,
    cancelAtCycleEnd: bool,
    boostedUntil: Option<int>,
    lastBoostedAt: Option<int>)

  datatype Revision = Revision(ad: Id, status: RevisionStatus, version: int)

  datatype Wallet = Wallet(coins: int, diamonds: int)

  datatype LedgerEntry = LedgerEntry(user: Id, kind: LedgerKind, deltaCoins: int, deltaDiamonds: int)

  datatype PromoPrice = PromoPrice(
    original: int,
    final: int,
    discount: int,
    originalCoins: int,
    finalCoins: int,
    discountCoins: int)

  datatype Details =
    | Monthly(price: PromoPrice)
    | BoostWindow(startsAt: int, hours: int)

  // A ledger row is named by its position in the ledger.
  datatype BillingEvent = BillingEvent(
    ad: Id,
    user: Id,
    kind: ChargeKind,
    succeeded: bool,
    currency: Currency,
    diamondAmount: int,
    coinAmount: int,
    ledgerRow: Option<nat>,
    startsAt: int,
    endsAt: int,
    details: Details)
  {
    // What the event took from the owner's balance.
    function Charge(): int {
      if currency == Coins then coinAmount else diamondAmount
    }
  }

  datatype Db = Db(
    settings: Settings,
    ads: map<Id, Ad>,
    revisions: map<Id, Revision>,
    wallets: map<Id, Wallet>,
    ledger: seq<LedgerEntry>,
    events: seq<BillingEvent>)

  // The tables of a fresh installation.
  function EmptyDb(settings: Settings): Db { Db(settings, map[], map[], map[], [], []) }

  datatype Error = NotFound | BadRequest | Forbidden | UniqueViolation

  // The tables a request leaves behind; a request that reports an error may still have committed.
  datatype Outcome = Outcome(db: Db, error: Option<Error>)

  function Done(db: Db): Outcome { Outcome(db, None) }

  function Refusal(db: Db, error: Error): Outcome { Outcome(db, Some(error)) }

  /* Prices. */

  // x || y on numbers: zero counts as absent.
  function OrElse(x: int, y: int): int { if x == 0 then y else x }

  function CoinRate(settings: Settings): (rate: int)
    ensures rate >= 1
  {
    Max(1, OrElse(settings.coinToDiamondRate, 2))
  }

  predicate PromoActive(settings: Settings, at: int) {
    && settings.promoEnabled
    && (settings.promoStartsAt.Some? ==> settings.promoStartsAt.value <= at)
    && (settings.promoEndsAt.Some? ==> settings.promoEndsAt.value >= at)
  }

  function CalculatePromoPrice(originalDiamondPrice: int, settings: Settings, at: int): (price: PromoPrice)
    ensures price.original == Max(0, originalDiamondPrice)
    ensures price.discount + price.final == price.original && price.discount >= 0 && price.final >= 0
    ensures price.discountCoins + price.finalCoins == price.originalCoins
    ensures price.finalCoins == price.final * CoinRate(settings)
    ensures !PromoActive(settings, at) ==> price.final == price.original
    ensures PromoActive(settings, at) && settings.promoFreeAdCreation ==> price.final == 0
    ensures PromoActive(settings, at) && !settings.promoFreeAdCreation && settings.promoDiscountType == Percent ==>
      100 * price.final
      >= price.original * (100 - Min(100, Max(0, settings.promoDiscountValue)))
      > 100 * (price.final - 1)
    ensures PromoActive(settings, at) && !settings.promoFreeAdCreation && settings.promoDiscountType.FixedDiamonds? ==>
      price.final == Max(0, price.original - Max(0, settings.promoDiscountValue))
  {
    var original := Max(0, originalDiamondPrice);
    var rate := CoinRate(settings);
    var value := Max(0, settings.promoDiscountValue);
    var offered :=
      if !PromoActive(settings, at) then 0
      else if settings.promoFreeAdCreation then original
      else if value == 0 then 0
      else if settings.promoDiscountType == FixedDiamonds then value
      else original * Min(100, value) / 100;
    PercentOf(original, Min(100, value));
    var discount := Max(0, Min(original, offered));
    var final := Max(0, original - discount);
    PromoPrice(original, final, discount, original * rate, final * rate, original * rate - final * rate)
  }

  // A percentage rounded down is at least zero, at most the whole, and less than one below the exact share.
  lemma PercentOf(whole: int, percent: int)
    requires whole >= 0 && 0 <= percent <= 100
    ensures 0 <= whole * percent / 100 <= whole
    ensures 100 * (whole - whole * percent / 100) >= whole * (100 - percent) > 100 * (whole - whole * percent / 100 - 1)
  {
    assert 0 <= whole * percent <= whole * 100;
    assert whole * (100 - percent) == 100 * whole - whole * percent;
  }

  function MonthlyPrice(ad: Ad, settings: Settings, startsAt: int): (price: PromoPrice) {
    var monthly := OrElse(OrElse(ad.monthlyDiamondPrice, settings.monthlyDiamondPrice), 250);
    CalculatePromoPrice(Max(1, monthly), settings, startsAt)
  }

  /* Wallets. */

  function WalletOf(db: Db, user: Id): Wallet {
    if user in db.wallets then db.wallets[user] else Wallet(0, 0)
  }

  function Balance(wallet: Wallet, currency: Currency): int {
    if currency == Coins then wallet.coins else wallet.diamonds
  }

  function Debited(wallet: Wallet, currency: Currency, amount: int): Wallet {
    if currency == Coins then wallet.(coins := wallet.coins - amount) else wallet.(diamonds := wallet.diamonds - amount)
  }

  function Debit(user: Id, kind: LedgerKind, currency: Currency, amount: int): LedgerEntry {
    if currency == Coins then LedgerEntry(user, kind, -amount, 0) else LedgerEntry(user, kind, 0, -amount)
  }

  // A payment: the wallet row exists afterwards, and a positive amount leaves one ledger row.
  function Pay(db: Db, user: Id, kind: LedgerKind, currency: Currency, amount: int): Db {
    var wallet := WalletOf(db, user);
    if amount > 0 then
      db.(wallets := db.wallets[user := Debited(wallet, currency, amount)],
          ledger := db.ledger + [Debit(user, kind, currency, amount)])
    else
      db.(wallets := db.wallets[user := wallet])
  }

  // Making sure of the wallet first changes nothing about a payment.
  lemma PaysFromEnsured(db: Db, user: Id, kind: LedgerKind, currency: Currency, amount: int)
    ensures Pay(db.(wallets := db.wallets[user := WalletOf(db, user)]), user, kind, currency, amount)
         == Pay(db, user, kind, currency, amount)
  {
  }

  predicate CanPay(db: Db, user: Id, currency: Currency, amount: int) {
    amount > 0 ==> amount <= Balance(WalletOf(db, user), currency)
  }

  function LedgerKindOf(kind: ChargeKind): LedgerKind {
    match kind
    case Renewal => RenewalDebit
    case Boost => BoostDebit
    case _ => AdDebit
  }

  function Record(db: Db, event: BillingEvent): Db {
    db.(events := db.events + [event])
  }

  /* Charging and activation, inside a transaction. */

  datatype ChargeResult = ChargeResult(db: Db, paid: bool)

  // Whether the owner can pay a month that starts at the given moment.
  predicate Affordable(db: Db, ad: Ad, startsAt: int) {
    var price := MonthlyPrice(ad, db.settings, startsAt);
    CanPay(db, ad.owner, ad.currency, if ad.currency == Coins then price.finalCoins else price.final)
  }

  function ChargeEvent(db: Db, id: Id, ad: Ad, kind: ChargeKind, startsAt: int, endsAt: int): BillingEvent {
    var price := MonthlyPrice(ad, db.settings, startsAt);
    var amount := if ad.currency == Coins then price.finalCoins else price.final;
    var paid := Affordable(db, ad, startsAt);
    BillingEvent(id, ad.owner, kind, paid, ad.currency, price.final, price.finalCoins,
                 if paid && amount > 0 then Some(|db.ledger|) else None, startsAt, endsAt, Monthly(price))
  }

  // Charging touches wallets, ledger and events, and no advertisement.
  function Charge(db: Db, id: Id, ad: Ad, kind: ChargeKind, startsAt: int, endsAt: int): (result: ChargeResult)
    ensures result.db.ads == db.ads && result.db.revisions == db.revisions && result.db.settings == db.settings
  {
    var event := ChargeEvent(db, id, ad, kind, startsAt, endsAt);
    var amount := if event.succeeded then event.Charge() else 0;
    ChargeResult(Record(Pay(db, ad.owner, LedgerKindOf(kind), ad.currency, amount), event), event.succeeded)
  }

  function FirstCycleEnd(now: int): int {
    AddMonthsWithAnchor(now, 1, GetUtcDate(now))
  }

  function ActivatedRow(ad: Ad, now: int): Ad {
    var remaining := if ad.requestedCycles.None? then None else Some(Max(0, ad.requestedCycles.value - 1));
    ad.(status := Live,
        anchorDay := Some(GetUtcDate(now)),
        cycleStartedAt := Some(now),
        cycleEndsAt := Some(FirstCycleEnd(now)),
        nextBillingAt := if remaining == Some(0) then None else Some(FirstCycleEnd(now)),
        remainingCycles := remaining,
        lastBilledAt := Some(now),
        cancelAtCycleEnd := false)
  }

  // The state inside the transaction after activation was tried.
  function Activate(db: Db, id: Id, kind: ChargeKind, now: int): Outcome {
    if id !in db.ads then Refusal(db, NotFound)
    else if db.ads[id].currentRevision.None? then Refusal(db, BadRequest)
    else
      var charge := Charge(db, id, db.ads[id], kind, now, FirstCycleEnd(now));
      if charge.paid then
        Done(charge.db.(ads := db.ads[id := ActivatedRow(db.ads[id], now)]))
      else
        Refusal(charge.db.(ads := db.ads[id := db.ads[id].(status := PaymentFailed)]), Forbidden)
  }

  /* Requests of the owner. */

  datatype Body = Body(contentOk: bool, currency: Currency, requestedDuration: Option<int>)

  // ONGOING, and anything that is not at least 1, asks for no fixed number of cycles.
  function RequestedCycles(duration: Option<int>): (cycles: Option<int>)
    ensures cycles.Some? <==> duration.Some? && duration.value >= 1
    ensures cycles.Some? ==> 1 <= cycles.value <= 120
    ensures cycles.Some? ==> (cycles.value == duration.value || cycles.value == 120 < duration.value)
  {
    if duration.None? || duration.value < 1 then None else Some(Min(120, duration.value))
  }

  function BodyError(body: Body, settings: Settings): Option<Error> {
    if !settings.enabled then Some(Forbidden)
    else if !body.contentOk || body.currency !in settings.allowedCurrencies then Some(BadRequest)
    else None
  }

  function RevisionsOf(db: Db, id: Id): set<Id> {
    set r | r in db.revisions && db.revisions[r].ad == id
  }

  predicate HasPendingRevision(db: Db, id: Id) {
    exists r :: r in db.revisions && db.revisions[r].ad == id && db.revisions[r].status == Submitted
  }

  function NewAd(user: Id, revision: Id, body: Body, settings: Settings): Ad {
    Ad(user, PendingReview, None, Some(revision), body.currency, OrElse(settings.monthlyDiamondPrice, 250),
       RequestedCycles(body.requestedDuration), None, None, None, None, None, None, false, None, None)
  }

  function CreateAdvertisement(db: Db, user: Id, id: Id, revision: Id, body: Body): Outcome {
    var error := BodyError(body, db.settings);
    if error.Some? then Outcome(db, error)
    else if id in db.ads || revision in db.revisions then Refusal(db, UniqueViolation)
    else
      Done(db.(ads := db.ads[id := NewAd(user, revision, body, db.settings)],
               revisions := db.revisions[revision := Revision(id, Submitted, 1)]))
  }

  function Owned(db: Db, user: Id, id: Id): bool {
    id in db.ads && db.ads[id].owner == user
  }

  function UpdateAdvertisement(db: Db, user: Id, id: Id, revision: Id, body: Body): Outcome {
    if !Owned(db, user, id) then Refusal(db, NotFound)
    else if HasPendingRevision(db, id) then Refusal(db, BadRequest)
    else
      var error := BodyError(body, db.settings);
      if error.Some? then Outcome(db, error)
      else if revision in db.revisions then Refusal(db, UniqueViolation)
      else
        var ad := db.ads[id];
        var row := ad.(latestSubmittedRevision := Some(revision),
                       status := if ad.currentRevision.Some? then ad.status else PendingReview,
                       currency := body.currency,
                       requestedCycles := RequestedCycles(body.requestedDuration));
        Done(db.(ads := db.ads[id := row],
                 revisions := db.revisions[revision := Revision(id, Submitted, |RevisionsOf(db, id)| + 1)]))
  }

  // A boost bought early starts when the one before it ends.
  function BoostStart(ad: Ad, now: int): int {
    if ad.boostedUntil.Some? && ad.boostedUntil.value > now then ad.boostedUntil.value else now
  }

  function BoostEvent(db: Db, user: Id, id: Id, ad: Ad, choice: Option<Currency>, now: int): (event: BillingEvent)
    ensures event.Charge() >= 1
  {
    var hours := Max(1, OrElse(db.settings.boostDurationHours, 24));
    var diamonds := Max(1, OrElse(db.settings.boostDiamondPrice, 100));
    var currency := if choice.Some? then choice.value else ad.currency;
    var startsAt := BoostStart(ad, now);
    BillingEvent(id, user, Boost, true, currency, diamonds, diamonds * CoinRate(db.settings), Some(|db.ledger|),
                 now, AddHours(startsAt, hours), BoostWindow(startsAt, hours))
  }

  function BoostAdvertisement(db: Db, user: Id, id: Id, choice: Option<Currency>, now: int): Outcome {
    if !db.settings.boostEnabled then Refusal(db, Forbidden)
    else if !Owned(db, user, id) then Refusal(db, NotFound)
    else if db.ads[id].status != Live || db.ads[id].currentRevision.None? then Refusal(db, BadRequest)
    else
      var ad := db.ads[id];
      var event := BoostEvent(db, user, id, ad, choice, now);
      if !CanPay(db, user, event.currency, event.Charge()) then Refusal(db, Forbidden)
      else
        var paid := Record(Pay(db, user, BoostDebit, event.currency, event.Charge()), event);
        Done(paid.(ads := db.ads[id := ad.(boostedUntil := Some(event.endsAt), lastBoostedAt := Some(now))]))
  }

  function CancelAtCycleEnd(db: Db, user: Id, id: Id): Outcome {
    if !Owned(db, user, id) then Refusal(db, NotFound)
    else
      var ad := db.ads[id];
      if ad.status == Live then
        Done(db.(ads := db.ads[id := ad.(status := CancelledEnding, cancelAtCycleEnd := true, nextBillingAt := None)]))
      else if ad.status == PaymentFailed then
        Done(db.(ads := db.ads[id := ad.(status := Inactive, cancelAtCycleEnd := false, nextBillingAt := None)]))
      else Refusal(db, BadRequest)
  }

  // A transaction that throws is rolled back.
  function InTransaction(before: Db, inside: Outcome): Outcome {
    if inside.error.Some? then Outcome(before, inside.error) else inside
  }

  function RepublishAdvertisement(db: Db, user: Id, id: Id, now: int): Outcome {
    if !Owned(db, user, id) then Refusal(db, NotFound)
    else if db.ads[id].currentRevision.None? || db.ads[id].status !in {Inactive, Expired, PaymentFailed} then
      Refusal(db, BadRequest)
    else InTransaction(db, Activate(db, id, Republish, now))
  }

  function RetryAdPayment(db: Db, user: Id, id: Id, now: int): Outcome {
    if !Owned(db, user, id) then Refusal(db, NotFound)
    else if db.ads[id].currentRevision.None? then Refusal(db, BadRequest)
    else InTransaction(db, Activate(db, id, RetryPayment, now))
  }

  /* Requests of an administrator. */

  // Approving a revision supersedes the approved one before it.
  function ApprovedRevisions(db: Db, revision: Id): map<Id, Revision>
    requires revision in db.revisions
  {
    var id := db.revisions[revision].ad;
    var supersede := id in db.ads && db.ads[id].currentRevision.Some? && db.ads[id].currentRevision.value != revision;
    map r | r in db.revisions ::
      if r == revision then db.revisions[r].(status := Approved)
      else if supersede && db.revisions[r].ad == id && db.revisions[r].status == Approved then
        db.revisions[r].(status := Superseded)
      else db.revisions[r]
  }

  function ApproveRevision(db: Db, revision: Id, now: int): Outcome {
    if revision !in db.revisions || db.revisions[revision].ad !in db.ads then Refusal(db, NotFound)
    else if db.revisions[revision].status != Submitted then Refusal(db, BadRequest)
    else
      var id := db.revisions[revision].ad;
      var ad := db.ads[id];
      var row := ad.(currentRevision := Some(revision), latestSubmittedRevision := Some(revision));
      var approved := db.(ads := db.ads[id := row], revisions := ApprovedRevisions(db, revision));
      if ad.currentRevision.Some? then Done(approved)
      else Done(Activate(approved, id, InitialCharge, now).db) // a failed first charge is kept, not rolled back
  }

  function DenyRevision(db: Db, revision: Id, hasReason: bool): Outcome {
    if !hasReason then Refusal(db, BadRequest)
    else if revision !in db.revisions || db.revisions[revision].ad !in db.ads then Refusal(db, NotFound)
    else if db.revisions[revision].status != Submitted then Refusal(db, BadRequest)
    else
      var id := db.revisions[revision].ad;
      var ad := db.ads[id];
      Done(db.(ads := db.ads[id := ad.(status := if ad.currentRevision.Some? then ad.status else Denied)],
               revisions := db.revisions[revision := db.revisions[revision].(status := Refused)]))
  }

  function PauseAdvertisement(db: Db, id: Id, hasReason: bool): Outcome {
    if !hasReason then Refusal(db, BadRequest)
    else if id !in db.ads then Refusal(db, NotFound)
    else Done(db.(ads := db.ads[id := db.ads[id].(status := AdminPaused, nextBillingAt := None)]))
  }

  function ResumedRow(ad: Ad, now: int): Ad {
    if ad.cycleEndsAt.Some? && ad.cycleEndsAt.value > now then
      ad.(status := Live, nextBillingAt := if ad.cancelAtCycleEnd then None else ad.cycleEndsAt)
    else
      ad.(status := Inactive, nextBillingAt := None)
  }

  function ResumeAdvertisement(db: Db, id: Id, now: int): Outcome {
    if id !in db.ads then Refusal(db, NotFound)
    else if db.ads[id].currentRevision.None? then Refusal(db, BadRequest)
    else Done(db.(ads := db.ads[id := ResumedRow(db.ads[id], now)]))
  }

  /* The renewal job: one transaction per selected advertisement. */

  predicate Reached(at: Option<int>, now: int) {
    at.Some? && at.value <= now
  }

  // The rows the job's query selects.
  predicate Due(ad: Ad, now: int) {
    || (ad.status == Live && Reached(ad.nextBillingAt, now))
    || (ad.status == CancelledEnding && Reached(ad.cycleEndsAt, now))
    || (ad.status == Live && ad.remainingCycles == Some(0) && Reached(ad.cycleEndsAt, now))
  }

  function RenewalAnchor(ad: Ad): int
    requires ad.nextBillingAt.Some?
  {
    if ad.anchorDay.Some? && ad.anchorDay.value != 0 then ad.anchorDay.value else GetUtcDate(ad.nextBillingAt.value)
  }

  function NextCycleEnd(ad: Ad): int
    requires ad.nextBillingAt.Some?
  {
    AddMonthsWithAnchor(ad.nextBillingAt.value, 1, RenewalAnchor(ad))
  }

  function RenewedRow(ad: Ad, now: int): Ad
    requires ad.nextBillingAt.Some?
  {
    var remaining := if ad.remainingCycles.None? then None else Some(Max(0, ad.remainingCycles.value - 1));
    ad.(cycleStartedAt := ad.nextBillingAt,
        cycleEndsAt := Some(NextCycleEnd(ad)),
        nextBillingAt := if remaining == Some(0) then None else Some(NextCycleEnd(ad)),
        remainingCycles := remaining,
        lastBilledAt := Some(now))
  }

  datatype RenewalEffect = Untouched | Renewed | Ended | Failed

  datatype RenewalResult = RenewalResult(db: Db, effect: RenewalEffect)

  function RenewAdvertisement(db: Db, id: Id, now: int): RenewalResult {
    if id !in db.ads then RenewalResult(db, Untouched)
    else
      var ad := db.ads[id];
      if ad.status == CancelledEnding && Reached(ad.cycleEndsAt, now) then
        var ended := ad.(status := Inactive, cancelAtCycleEnd := false, nextBillingAt := None);
        RenewalResult(db.(ads := db.ads[id := ended]), Ended)
      else if ad.status == Live && ad.remainingCycles == Some(0) && Reached(ad.cycleEndsAt, now) then
        RenewalResult(db.(ads := db.ads[id := ad.(status := Expired, nextBillingAt := None)]), Ended)
      else if ad.status != Live || !Reached(ad.nextBillingAt, now) then
        RenewalResult(db, Untouched)
      else
        var charge := Charge(db, id, ad, Renewal, ad.nextBillingAt.value, NextCycleEnd(ad));
        if charge.paid then
          RenewalResult(charge.db.(ads := db.ads[id := RenewedRow(ad, now)]), Renewed)
        else
          RenewalResult(charge.db.(ads := db.ads[id := ad.(status := PaymentFailed, nextBillingAt := None)]), Failed)
  }

  /* Runs. */

  datatype Request =
    | CreateAd(user: Id, id: Id, revision: Id, body: Body)
    | UpdateAd(user: Id, id: Id, revision: Id, body: Body)
    | ApproveAd(revision: Id)
    | DenyAd(revision: Id, hasReason: bool)
    | PauseAd(id: Id, hasReason: bool)
    | ResumeAd(id: Id)
    | BoostAd(user: Id, id: Id, choice: Option<Currency>)
    | CancelAd(user: Id, id: Id)
    | RepublishAd(user: Id, id: Id)
    | RetryAd(user: Id, id: Id)
    | RenewAd(id: Id)
    | ChangeSettings(settings: Settings)
    | CreditWallet(user: Id, coins: nat, diamonds: nat)

  // Money entering a wallet elsewhere in the application, with its ledger row.
  function Credited(db: Db, user: Id, coins: nat, diamonds: nat): Db {
    var wallet := WalletOf(db, user);
    db.(wallets := db.wallets[user := Wallet(wallet.coins + coins, wallet.diamonds + diamonds)],
        ledger := db.ledger + [LedgerEntry(user, Credit, coins, diamonds)])
  }

  function Perform(db: Db, request: Request, now: int): Outcome {
    match request
    case CreateAd(user, id, revision, body) => CreateAdvertisement(db, user, id, revision, body)
    case UpdateAd(user, id, revision, body) => UpdateAdvertisement(db, user, id, revision, body)
    case ApproveAd(revision) => ApproveRevision(db, revision, now)
    case DenyAd(revision, hasReason) => DenyRevision(db, revision, hasReason)
    case PauseAd(id, hasReason) => PauseAdvertisement(db, id, hasReason)
    case ResumeAd(id) => ResumeAdvertisement(db, id, now)
    case BoostAd(user, id, choice) => BoostAdvertisement(db, user, id, choice, now)
    case CancelAd(user, id) => CancelAtCycleEnd(db, user, id)
    case RepublishAd(user, id) => RepublishAdvertisement(db, user, id, now)
    case RetryAd(user, id) => RetryAdPayment(db, user, id, now)
    case RenewAd(id) => Done(RenewAdvertisement(db, id, now).db)
    case ChangeSettings(settings) => Done(db.(settings := settings))
    case CreditWallet(user, coins, diamonds) => Done(Credited(db, user, coins, diamonds))
  }

  function Step(db: Db, call: Call): Db {
    Perform(db, call.request, call.at).db
  }

  datatype Call = Call(request: Request, at: int)

  function Run(db: Db, calls: seq<Call>): Db
    decreases |calls|
  {
    if calls == [] then db else Run(Step(db, calls[0]), calls[1..])
  }

  // The clock never goes back.
  predicate InOrder(clock: int, calls: seq<Call>)
    decreases |calls|
  {
    calls == [] || (clock <= calls[0].at && InOrder(calls[0].at, calls[1..]))
  }

  function ClockAfter(clock: int, calls: seq<Call>): int
    decreases |calls|
  {
    if calls == [] then clock else ClockAfter(calls[0].at, calls[1..])
  }
}
