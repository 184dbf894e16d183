/** Webhook notifications: which deliveries are passed on without asking the provider, and why none of
    those can create a credit. */
module Notifications {
  import opened Wrappers
  import opened Registry
  import opened Packs
  import opened Policy
  import opened Tables
  import opened Purchases
  import opened Unlocks
  import opened Invariants
  import opened Protocol
  import opened Runs
  import opened Lifecycles

  datatype Route = Ignored | Misconfiguration | Unavailable | PassedOn(event: Event, confirmed: bool)

  /** Facts of the delivery that fulfilment quarantines without the provider's help. */
  predicate NeedsNoLookup(s: Tables, e: Event)
    requires s.settings.registry.Some?
  {
    var product := Listed(s.settings.registry.value, e.app, e.product);
    || product.None? || e.store != product.value.store || e.environment != product.value.environment
    || !e.identityValid || !e.quantityValid
    || e.owner.Malformed?
    || e.owner.id !in s.store.identities || !Attached(s, s.store.identities[e.owner.id])
  }

  /** The provider's own record agrees with the delivery. */
  predicate Confirms(record: Event, e: Event) {
    && RawKey(record) == RawKey(e) && record.transaction == e.transaction
    && record.app == e.app && record.store == e.store && record.environment == e.environment
    && record.product == e.product && record.owner == e.owner && record.purchasedAtMs == e.purchasedAtMs
    && record.quantityValid && record.identityValid
    && (record.kind.NonRenewingPurchase? || record.kind.Cancellation?)
  }

  /** What is done with a notification. `record` is the provider's answer, if it is asked. */
  function Routed(s: Tables, e: Event, record: Option<Event>): Route {
    if !e.kind.NonRenewingPurchase? && !e.kind.Cancellation? then Ignored
    else if e.kind.Cancellation? then PassedOn(e, false)
    else if s.settings.registry.None? then Misconfiguration
    else if NeedsNoLookup(s, e) then PassedOn(e, false)
    else if record.None? || !Confirms(record.value, e) then Unavailable
    else if record.value.kind.Cancellation? then PassedOn(e.(kind := Cancellation), true)
    else PassedOn(e, true)
  }

  lemma AttachedStaysLost(s: Tables, steps: seq<Step>, w: WalletId)
    requires Inv(s) && w in s.wallets.owners && !Attached(s, w)
    ensures !Attached(Run(s, steps), w)
  {
    DetachedIsFrozen(s, steps, w);
  }

  lemma {:induction false} IdentitiesAreKept(s: Tables, steps: seq<Step>)
    ensures Extends(s.store.identities, Run(s, steps).store.identities)
    decreases |steps|
  {
    if steps != [] {
      StoreIsAppendOnly(s, steps[0]);
      IdentitiesAreKept(Next(s, steps[0]), steps[1..]);
    }
  }

  /** The purchase identity a delivery names was issued between the check and the fulfilment. */
  ghost predicate IssuedBetween(s: Tables, later: Tables, e: Event) {
    e.owner.Canonical? && e.owner.id !in s.store.identities && e.owner.id in later.store.identities
  }

  /** Its product was listed between them, by a change of the registry. */
  ghost predicate ListedBetween(s: Tables, later: Tables, e: Event) {
    && s.settings.registry.Some? && !Supported(s.settings.registry.value, e)
    && later.settings.registry.Some? && Supported(later.settings.registry.value, e)
  }

  lemma LostOrMissingIsNotCreditable(s: Tables, later: Tables, e: Event, receipt: Uuid)
    requires e.kind.Cancellation? || (s.settings.registry.Some? && NeedsNoLookup(s, e))
    requires Extends(s.store.identities, later.store.identities)
    requires forall w :: w in s.store.identities.Values && !Attached(s, w) ==> !Attached(later, w)
    ensures Creditable(later, e, receipt) ==> IssuedBetween(s, later, e) || ListedBetween(s, later, e)
  {
    if e.owner.Canonical? && e.owner.id in s.store.identities {
      assert s.store.identities[e.owner.id] in s.store.identities.Values;
    }
  }

  /** No lock is held between the check and the fulfilment: anything may run in between. Still, a
      delivery passed on unconfirmed is creditable then only if its purchase identity was issued in
      between, or its product listed. */
  lemma UnconfirmedIsNotCreditable(s: Tables, steps: seq<Step>, e: Event, record: Option<Event>, receipt: Uuid)
    requires Inv(s)
    requires Routed(s, e, record).PassedOn? && !Routed(s, e, record).confirmed
    ensures var later := Run(s, steps);
            Creditable(later, e, receipt) ==> IssuedBetween(s, later, e) || ListedBetween(s, later, e)
  {
    var later := Run(s, steps);
    IdentitiesAreKept(s, steps);
    forall w | w in s.store.identities.Values && !Attached(s, w) ensures !Attached(later, w) {
      AttachedStaysLost(s, steps, w);
    }
    LostOrMissingIsNotCreditable(s, later, e, receipt);
  }

  /** Every new credit by webhook has a provider record that agrees with it on transaction, product,
      owner and time and reports it owned - as long as the owner's identity is not issued, and the
      product not listed, between the check and the fulfilment. */
  lemma NewCreditIsConfirmed(s: Tables, steps: seq<Step>, e: Event, record: Option<Event>, receipt: Uuid)
    requires Inv(s) && Routed(s, e, record).PassedOn?
    ensures var passed := Routed(s, e, record).event;
            var later := Run(s, steps);
            After(later, Fulfill(later, passed, receipt)).ledger != later.ledger ==>
              || IssuedBetween(s, later, e) || ListedBetween(s, later, e)
              || (&& passed == e
                  && record.Some? && record.value.kind.NonRenewingPurchase?
                  && TransactionOf(record.value) == TransactionOf(e)
                  && record.value.product == e.product && record.value.owner == e.owner
                  && record.value.purchasedAtMs == e.purchasedAtMs)
  {
    var later := Run(s, steps);
    FulfillMovesCoinsIff(later, Routed(s, e, record).event, receipt);
    if Routed(s, e, record).confirmed {
      assert RawKey(record.value) == RawKey(e);
    } else {
      UnconfirmedIsNotCreditable(s, steps, e, record, receipt);
    }
  }

  /** These are the only gaps: an unconfirmed delivery is credited exactly when it is creditable at its
      fulfilment, and then its identity was issued, or its product listed, after the check. */
  lemma UnconfirmedCreditIff(s: Tables, steps: seq<Step>, e: Event, record: Option<Event>, receipt: Uuid)
    requires Inv(s)
    requires Routed(s, e, record).PassedOn? && !Routed(s, e, record).confirmed
    ensures var later := Run(s, steps);
            After(later, Fulfill(later, e, receipt)).ledger != later.ledger <==>
              Creditable(later, e, receipt) && (IssuedBetween(s, later, e) || ListedBetween(s, later, e))
  {
    FulfillMovesCoinsIff(Run(s, steps), e, receipt);
    UnconfirmedIsNotCreditable(s, steps, e, record, receipt);
  }

  /** Negative evidence is a barrier: once a cancellation - the delivery's own, or one the provider
      reported - has been fulfilled, no later run credits that transaction. */
  lemma NegativeEvidenceBars(s: Tables, later: Tables, e: Event, record: Option<Event>, receipt: Uuid, steps: seq<Step>)
    requires Inv(later) && Routed(s, e, record).PassedOn? && Routed(s, e, record).event.kind.Cancellation?
    requires Fulfill(later, Routed(s, e, record).event, receipt).Done?
    ensures var after := Fulfill(later, Routed(s, e, record).event, receipt).tables;
            after.ledger == later.ledger && Count(after, steps, Crediting(TransactionOf(e))) == 0
  {
    var passed := Routed(s, e, record).event;
    assert TransactionOf(passed) == TransactionOf(e);
    FulfillMovesCoinsIff(later, passed, receipt);
    FirstDeliveryIsFinal(later, passed, receipt, steps);
  }
}
