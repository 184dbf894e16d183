/** Purchase identities and the fulfilment of store deliveries. */
module Purchases {
  import opened Wrappers
  import opened Registry
  import opened Packs
  import opened Tables

  function PurchaseIdentity(s: Tables, who: ProfileRef, wallet: WalletId, identity: Uuid): Result<WalletId> {
    if !s.settings.purchasesEnabled then Raised(PurchaseUnavailable)
    else if s.settings.registry.None? then Raised(Misconfigured)
    else if !Current(s, who) then Raised(AuthenticationFailed)
    else if !WalletReady(s, who.id, wallet) then Raised(Integrity)
    else
      var s1, w := WithWallet(s, who.id, wallet), WalletFor(s, who.id, wallet);
      if w in s.store.identities.Values then Done(w, s1)
      else if identity in s.store.identities then Raised(Integrity)
      else Done(w, s1.(store := s1.store.(identities := s1.store.identities[identity := w])))
  }

  /** The application an event's app is permanently bound to, if the registry still agrees. */
  function Application(s: Tables, e: Event): (application: Option<ApplicationId>)
    requires s.settings.registry.Some?
    ensures application.Some? && e.app in s.store.bindings ==> s.store.bindings[e.app] == application.value
    ensures application.Some? && e.app !in s.store.bindings ==> application.value !in s.store.bindings.Values
  {
    match Scope(s.settings.registry.value, e.app)
    case None => None
    case Some(scope) =>
      if e.app in s.store.bindings
      then if s.store.bindings[e.app] == scope.application then Some(scope.application) else None
      else if scope.application in s.store.bindings.Values then None
      else Some(scope.application)
  }

  /** When an app's application is resolved: some product of the app has it, the app is not bound to
      another, and no other app is bound to it. */
  lemma ApplicationIff(s: Tables, e: Event, application: ApplicationId)
    requires s.settings.registry.Some? && WellFormed(s.settings.registry.value)
    ensures Application(s, e) == Some(application) <==>
      && (exists p :: p in s.settings.registry.value && p.app == e.app && p.application == application)
      && (if e.app in s.store.bindings then s.store.bindings[e.app] == application
          else application !in s.store.bindings.Values)
  {
    var products := s.settings.registry.value;
    if p :| p in products && p.app == e.app {
      ScopeIsUnique(products, p);
    }
  }

  function KeyFor(e: Event, application: Option<ApplicationId>): TxKey {
    if application.Some? then ResolvedKey(TransactionOf(e), application.value) else RawKey(e)
  }

  predicate Conflict(s: Tables, e: Event) {
    exists f :: f in s.store.events && KeyOf(f) == KeyOf(e)
  }

  predicate LiveOwner(s: Tables, owner: Owner) {
    && owner.Canonical?
    && owner.id in s.store.identities
    && Attached(s, s.store.identities[owner.id])
    && s.wallets.owners[s.store.identities[owner.id]].value in s.people.profiles
    && s.people.profiles[s.wallets.owners[s.store.identities[owner.id]].value].uid !in s.people.deletions
  }

  /** The first ground on which a new transaction is quarantined, if any. */
  function Refusal(s: Tables, e: Event, conflict: bool): Option<Reason>
    requires s.settings.registry.Some?
  {
    var product := Listed(s.settings.registry.value, e.app, e.product);
    if conflict then Some(EventConflict)
    else if product.None? || e.store != product.value.store || e.environment != product.value.environment
    then Some(UnsupportedScope)
    else if e.kind.Cancellation? || e.kind.Refund? then Some(RefundBeforeCredit)
    else if !e.kind.NonRenewingPurchase? then Some(UnsupportedEvent)
    else if !e.quantityValid then Some(InvalidQuantity)
    else if !e.identityValid then Some(IdentityConflict)
    else if !LiveOwner(s, e.owner) then Some(UnknownOrDeletedOwner)
    else None
  }

  /** The coins a creditable event is worth now. */
  function Worth(s: Tables, e: Event): int
    requires s.settings.registry.Some? && Listed(s.settings.registry.value, e.app, e.product).Some?
  {
    CreditedCoins(s.packs, Listed(s.settings.registry.value, e.app, e.product).value, e.purchasedAtMs, s.clock)
  }

  /** Everything one delivery reads before it writes. */
  datatype Facts = Facts(
    application: Option<ApplicationId>,
    conflict: bool,
    refusal: Option<Reason>,
    credit: Option<Credit>)

  datatype Credit = Credit(wallet: WalletId, identity: Uuid, coins: nat, product: Product, postable: bool)

  function RefusalFor(s: Tables, e: Event, resolved: bool, conflict: bool): Option<Reason>
    requires s.settings.registry.Some?
  {
    if resolved then Refusal(s, e, conflict) else Some(UnsupportedScope)
  }

  function CreditFor(s: Tables, e: Event, receipt: Uuid): Credit
    requires s.settings.registry.Some? && LiveOwner(s, e.owner)
    requires Listed(s.settings.registry.value, e.app, e.product).Some?
  {
    var w, coins := s.store.identities[e.owner.id], Worth(s, e);
    Credit(w, e.owner.id, if coins < 0 then 0 else coins,
           Listed(s.settings.registry.value, e.app, e.product).value,
           Postable(s, w, receipt, Purchase, coins))
  }

  function Gather(s: Tables, e: Event, receipt: Uuid): Facts
    requires s.settings.registry.Some?
  {
    var application := Application(s, e);
    var conflict := Conflict(s, e);
    var refusal := RefusalFor(s, e, application.Some?, conflict);
    Facts(application, conflict, refusal, if refusal.Some? then None else Some(CreditFor(s, e, receipt)))
  }

  /** What a delivery reads does not depend on the bindings, beyond its application. */
  lemma BindingsDoNotMatter(
    s: Tables, bindings: map<AppId, ApplicationId>, e: Event, resolved: bool, conflict: bool, receipt: Uuid)
    requires s.settings.registry.Some?
    ensures var t := s.(store := s.store.(bindings := bindings));
            && RefusalFor(t, e, resolved, conflict) == RefusalFor(s, e, resolved, conflict)
            && (RefusalFor(s, e, resolved, conflict).None? ==> CreditFor(t, e, receipt) == CreditFor(s, e, receipt))
  {
  }

  /** What one delivery is told about the decision of its transaction. */
  function Report(e: Event, decision: Decision, claim: Claim, conflict: bool): (Status, Reason) {
    var status := if decision.Credited? then IsCredited else IsQuarantined;
    var reason := if decision.Credited? then VerifiedPurchase else decision.reason;
    if conflict then (IsQuarantined, EventConflict)
    else if (e.kind.Cancellation? || e.kind.Refund?) && decision.Credited? then (IsQuarantined, RefundAfterCredit)
    else if decision.claim != claim || (!e.identityValid && decision.Credited?)
    then (IsQuarantined, TransactionConflict)
    else if !e.kind.NonRenewingPurchase? || !e.quantityValid
    then (IsQuarantined, if decision.Quarantined? then reason else UnsupportedEvent)
    else (status, reason)
  }

  /** The decision a delivery ends with, the key it is stored under, and the ledger after it. */
  datatype Settlement = Settlement(used: TxKey, decision: Decision, ledger: seq<Entry>)

  /** A transaction already decided, under its raw key first, stays decided. None: a row guard
      rejected the credit. */
  function Settle(s: Tables, e: Event, receipt: Uuid, f: Facts): Option<Settlement>
    requires f.refusal.None? ==> f.credit.Some?
  {
    var key := KeyFor(e, f.application);
    if RawKey(e) in s.store.decisions then Some(Settlement(RawKey(e), s.store.decisions[RawKey(e)], s.ledger))
    else if key in s.store.decisions then Some(Settlement(key, s.store.decisions[key], s.ledger))
    else if f.refusal.Some? then Some(Settlement(key, Quarantined(ClaimOf(e, key), f.refusal.value), s.ledger))
    else if !f.credit.value.postable then None
    else
      var c := f.credit.value;
      Some(Settlement(key, Credited(ClaimOf(e, key), receipt, c.identity, |s.ledger|, c.coins, c.product),
                      s.ledger + [Entry(c.wallet, receipt, Purchase, c.coins, s.clock)]))
  }

  function Row(e: Event, f: Facts, x: Settlement): EventRow {
    var (status, reason) := Report(e, x.decision, ClaimOf(e, KeyFor(e, f.application)), f.conflict);
    EventRow(x.used, status, reason)
  }

  /** The writes of one delivery. */
  function Recorded(s: Tables, e: Event, f: Facts, x: Settlement): Tables {
    s.(
      ledger := x.ledger,
      store := s.store.(
        bindings := if f.application.Some? then s.store.bindings[e.app := f.application.value] else s.store.bindings,
        decisions := s.store.decisions[x.used := x.decision],
        events := s.store.events[e := Row(e, f, x)]))
  }

  /** One delivery, as one transaction. `receipt` is the identifier drawn for a new credit. */
  function Fulfill(s: Tables, e: Event, receipt: Uuid): Result<EventRow> {
    if !s.settings.purchasesEnabled then Raised(PurchaseUnavailable)
    else if e in s.store.events then Done(s.store.events[e], s)
    else if s.settings.registry.None? then Raised(Misconfigured)
    else
      var f := Gather(s, e, receipt);
      var x := Settle(s, e, receipt, f);
      if x.None? then Raised(Integrity) else Done(Row(e, f, x.value), Recorded(s, e, f, x.value))
  }

  // What a delivery does, stated without following its steps

  /** The delivery is the first word on its transaction, from a supported product, for a live owner,
      and the ledger can take it. */
  ghost predicate Creditable(s: Tables, e: Event, receipt: Uuid) {
    && s.settings.purchasesEnabled && s.settings.registry.Some?
    && !Conflict(s, e)
    && RawKey(e) !in s.store.decisions
    && Application(s, e).Some?
    && ResolvedKey(TransactionOf(e), Application(s, e).value) !in s.store.decisions
    && Supported(s.settings.registry.value, e)
    && e.kind == NonRenewingPurchase && e.quantityValid && e.identityValid
    && LiveOwner(s, e.owner)
    && Postable(s, s.store.identities[e.owner.id], receipt, Purchase, Worth(s, e))
  }

  ghost predicate Supported(products: seq<Product>, e: Event) {
    var product := Listed(products, e.app, e.product);
    product.Some? && e.store == product.value.store && e.environment == product.value.environment
  }

  lemma SettleMovesCoinsIff(s: Tables, e: Event, receipt: Uuid, f: Facts)
    requires f.refusal.None? ==> f.credit.Some?
    ensures var x := Settle(s, e, receipt, f);
            var pays := RawKey(e) !in s.store.decisions && KeyFor(e, f.application) !in s.store.decisions
              && f.refusal.None? && f.credit.value.postable;
            && (x.Some? && x.value.ledger != s.ledger <==> pays)
            && (pays ==>
                  x.value.ledger ==
                    s.ledger + [Entry(f.credit.value.wallet, receipt, Purchase, f.credit.value.coins, s.clock)])
  {
    if f.credit.Some? {
      var line := Entry(f.credit.value.wallet, receipt, Purchase, f.credit.value.coins, s.clock);
      assert |s.ledger + [line]| == |s.ledger| + 1;
    }
  }

  /** Coins move exactly on a creditable delivery. */
  lemma FulfillMovesCoinsIff(s: Tables, e: Event, receipt: Uuid)
    ensures After(s, Fulfill(s, e, receipt)).ledger != s.ledger <==> Creditable(s, e, receipt)
  {
    if e in s.store.events {
      assert Conflict(s, e);
    } else if s.settings.purchasesEnabled && s.settings.registry.Some? {
      SettleMovesCoinsIff(s, e, receipt, Gather(s, e, receipt));
    }
  }

  /** A creditable delivery appends exactly one line, worth the honoured coins, to its owner's wallet. */
  lemma FulfillCreditsWorth(s: Tables, e: Event, receipt: Uuid)
    requires Creditable(s, e, receipt)
    ensures Fulfill(s, e, receipt).Done?
    ensures Fulfill(s, e, receipt).tables.ledger ==
            s.ledger + [Entry(s.store.identities[e.owner.id], receipt, Purchase, Worth(s, e), s.clock)]
    ensures var key := ResolvedKey(TransactionOf(e), Application(s, e).value);
            Fulfill(s, e, receipt).tables.store.decisions[key].entry == |s.ledger|
  {
    assert KeyOf(e) == KeyOf(e);
    SettleMovesCoinsIff(s, e, receipt, Gather(s, e, receipt));
  }

  /** A delivery is told "credited" exactly when its own claim is the credited one and nothing about the
      delivery is suspicious. */
  lemma ReportedCreditedIff(s: Tables, e: Event, receipt: Uuid)
    requires e !in s.store.events && Fulfill(s, e, receipt).Done?
    ensures var r := Fulfill(s, e, receipt);
            && r.value.decision in r.tables.store.decisions
            && (r.value.status == IsCredited <==>
                  && r.tables.store.decisions[r.value.decision].Credited?
                  && r.tables.store.decisions[r.value.decision].claim == ClaimOf(e, KeyFor(e, Application(s, e)))
                  && e.kind == NonRenewingPurchase && e.quantityValid && e.identityValid
                  && !Conflict(s, e))
  {
  }

  /** A redelivery is answered from its stored row and changes nothing, in any later state. */
  lemma RedeliveryIsIdempotent(s: Tables, e: Event, receipt: Uuid, again: Tables, other: Uuid)
    requires Fulfill(s, e, receipt).Done?
    requires e in again.store.events && again.store.events[e] == Fulfill(s, e, receipt).value
    requires again.settings.purchasesEnabled
    ensures Fulfill(again, e, other) == Done(Fulfill(s, e, receipt).value, again)
  {
  }

  ghost predicate Extends<K, V>(before: map<K, V>, after: map<K, V>) {
    forall k :: k in before ==> k in after && after[k] == before[k]
  }

  lemma SettleKeepsHistory(s: Tables, e: Event, receipt: Uuid, f: Facts)
    requires f.refusal.None? ==> f.credit.Some?
    ensures var x := Settle(s, e, receipt, f);
            x.Some? ==>
              && (x.value.used in s.store.decisions ==> x.value.decision == s.store.decisions[x.value.used])
              && s.ledger <= x.value.ledger
  {
  }

  /** Decided transactions are never decided again. */
  lemma FulfillKeepsDecisions(s: Tables, e: Event, receipt: Uuid)
    ensures Extends(s.store.decisions, After(s, Fulfill(s, e, receipt)).store.decisions)
  {
    if s.settings.purchasesEnabled && s.settings.registry.Some? && e !in s.store.events {
      SettleKeepsHistory(s, e, receipt, Gather(s, e, receipt));
    }
  }

  lemma FulfillKeepsEvents(s: Tables, e: Event, receipt: Uuid)
    ensures Extends(s.store.events, After(s, Fulfill(s, e, receipt)).store.events)
  {
  }

  lemma FulfillKeepsBindings(s: Tables, e: Event, receipt: Uuid)
    ensures Extends(s.store.bindings, After(s, Fulfill(s, e, receipt)).store.bindings)
  {
  }

  /** Every committed delivery is recorded, and leaves its transaction decided under its raw key or
      under the key of its application. */
  lemma FulfillSettles(s: Tables, e: Event, receipt: Uuid)
    requires e !in s.store.events && Fulfill(s, e, receipt).Done?
    ensures var r := Fulfill(s, e, receipt);
            && e in r.tables.store.events && r.tables.store.events[e] == r.value
            && r.value.decision in r.tables.store.decisions
            && (r.value.decision == RawKey(e)
                || (&& e.app in r.tables.store.bindings
                    && r.value.decision == ResolvedKey(TransactionOf(e), r.tables.store.bindings[e.app])))
  {
  }
}
