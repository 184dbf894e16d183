/** What holds over whole runs of the accounting protocol, whatever is retried, reordered, reconfigured
    or edited in between. */
module Runs {
  import opened Wrappers
  import opened Registry
  import opened Packs
  import opened Policy
  import opened Tables
  import opened Purchases
  import opened Unlocks
  import opened Rewards
  import opened Accounts
  import opened Invariants
  import opened Protocol

  // Counting what a run does

  type Deed = (Tables, Step) -> bool

  ghost function Count(s: Tables, steps: seq<Step>, deed: Deed): nat
    decreases |steps|
  {
    if steps == [] then 0
    else (if deed(s, steps[0]) then 1 else 0) + Count(Next(s, steps[0]), steps[1..], deed)
  }

  /** From a reachable state a deed is done only while not sealed, doing it seals it, and seals last. */
  ghost predicate Seals(deed: Deed, sealed: Tables -> bool) {
    && (forall s, step :: Inv(s) && deed(s, step) ==> !sealed(s) && sealed(Next(s, step)))
    && (forall s, step :: Inv(s) && sealed(s) ==> sealed(Next(s, step)))
  }

  lemma {:induction false} SealedHappensOnce(s: Tables, steps: seq<Step>, deed: Deed, sealed: Tables -> bool)
    requires Inv(s) && Seals(deed, sealed)
    ensures Count(s, steps, deed) <= 1
    ensures sealed(s) ==> Count(s, steps, deed) == 0
    decreases |steps|
  {
    if steps != [] {
      NextKeepsInv(s, steps[0]);
      SealedHappensOnce(Next(s, steps[0]), steps[1..], deed, sealed);
    }
  }

  // History only grows

  /** Identities, bindings, decisions and recorded deliveries are never removed or rewritten. */
  lemma StoreIsAppendOnly(s: Tables, step: Step)
    ensures var after := Next(s, step).store;
            && Extends(s.store.identities, after.identities) && Extends(s.store.bindings, after.bindings)
            && Extends(s.store.decisions, after.decisions) && Extends(s.store.events, after.events)
  {
    if step.Deliver? {
      FulfillKeepsDecisions(s, step.event, step.receipt);
      FulfillKeepsBindings(s, step.event, step.receipt);
      FulfillKeepsEvents(s, step.event, step.receipt);
    } else if step.Identify? {
      var result := PurchaseIdentity(s, step.who, step.wallet, step.identity);
      if result.Done? {
      }
    } else {
      OnlyStoreStepsTouchStore(s, step);
    }
  }

  lemma OnlyStoreStepsTouchStore(s: Tables, step: Step)
    requires !step.Deliver? && !step.Identify?
    ensures Next(s, step).store == s.store
  {
  }

  lemma OnlyMoneyStepsTouchLedger(s: Tables, step: Step)
    requires !step.Deliver? && !step.Spend? && !step.Correct?
    ensures Next(s, step).ledger == s.ledger
  {
  }

  lemma OnlySpendingStepsTouchReceipts(s: Tables, step: Step)
    requires !step.Spend? && !step.Resolve?
    ensures Next(s, step).spending.unlocks == s.spending.unlocks
    ensures Next(s, step).spending.cancellations == s.spending.cancellations
  {
  }

  // At most one credit per store transaction

  /** The step is a delivery of this transaction that moves coins. */
  ghost predicate CreditsFor(s: Tables, step: Step, t: Transaction) {
    step.Deliver? && TransactionOf(step.event) == t && Next(s, step).ledger != s.ledger
  }

  ghost function Crediting(t: Transaction): Deed { (s, step) => CreditsFor(s, step, t) }

  ghost function SettledFor(t: Transaction): Tables -> bool { (s: Tables) => Settled(s.store, t) }

  lemma SettledStays(s: Tables, step: Step, t: Transaction)
    requires Settled(s.store, t)
    ensures Settled(Next(s, step).store, t)
  {
    StoreIsAppendOnly(s, step);
  }

  lemma CreditSettles(s: Tables, e: Event, receipt: Uuid)
    requires Creditable(s, e, receipt)
    ensures !Settled(s.store, TransactionOf(e))
    ensures Settled(Fulfill(s, e, receipt).tables.store, TransactionOf(e))
  {
    assert KeyOf(e) == KeyOf(e);
    FulfillCreditsWorth(s, e, receipt);
    FulfillSettles(s, e, receipt);
  }

  lemma CreditSeals(s: Tables, step: Step, t: Transaction)
    requires CreditsFor(s, step, t)
    ensures !Settled(s.store, t) && Settled(Next(s, step).store, t)
  {
    FulfillMovesCoinsIff(s, step.event, step.receipt);
    CreditSettles(s, step.event, step.receipt);
  }

  lemma CreditsAreSealed(t: Transaction)
    ensures Seals(Crediting(t), SettledFor(t))
  {
    forall s, step | CreditsFor(s, step, t)
      ensures !Settled(s.store, t) && Settled(Next(s, step).store, t)
    {
      CreditSeals(s, step, t);
    }
    forall s: Tables, step | Settled(s.store, t) ensures Settled(Next(s, step).store, t) {
      SettledStays(s, step, t);
    }
  }

  /** Over any run - retries, reorderings, reused event identifiers, registry changes - one app's store
      transaction is credited at most once. */
  lemma AtMostOneCredit(s: Tables, steps: seq<Step>, t: Transaction)
    requires Inv(s)
    ensures Count(s, steps, Crediting(t)) <= 1
  {
    CreditsAreSealed(t);
    SealedHappensOnce(s, steps, Crediting(t), SettledFor(t));
  }

  /** Once any delivery of a transaction has been committed the matter is closed: if that first delivery
      did not credit, no later one does, even when the app is configured only afterwards. */
  lemma FirstDeliveryIsFinal(s: Tables, e: Event, receipt: Uuid, steps: seq<Step>)
    requires Inv(s) && Fulfill(s, e, receipt).Done?
    ensures Count(Fulfill(s, e, receipt).tables, steps, Crediting(TransactionOf(e))) == 0
  {
    var t := TransactionOf(e);
    var after := Fulfill(s, e, receipt).tables;
    DeliverKeepsInv(s, e, receipt);
    if e !in s.store.events {
      FulfillSettles(s, e, receipt);
    }
    CreditsAreSealed(t);
    SealedHappensOnce(after, steps, Crediting(t), SettledFor(t));
  }

  /** The step credits this transaction of an application's store, through whichever app reports it. */
  ghost predicate CreditsInStore(s: Tables, step: Step, key: TxKey) {
    && step.Deliver? && Next(s, step).ledger != s.ledger
    && step.event.app in Next(s, step).store.bindings
    && key == ResolvedKey(TransactionOf(step.event), Next(s, step).store.bindings[step.event.app])
  }

  ghost function CreditingInStore(key: TxKey): Deed { (s, step) => CreditsInStore(s, step, key) }

  ghost function DecidedFor(key: TxKey): Tables -> bool { (s: Tables) => key in s.store.decisions }

  lemma StoreCreditSeals(s: Tables, step: Step, key: TxKey)
    requires CreditsInStore(s, step, key)
    ensures key !in s.store.decisions && key in Next(s, step).store.decisions
  {
    FulfillMovesCoinsIff(s, step.event, step.receipt);
    FulfillCreditsWorth(s, step.event, step.receipt);
  }

  lemma StoreCreditsAreSealed(key: TxKey)
    ensures Seals(CreditingInStore(key), DecidedFor(key))
  {
    forall s, step | CreditsInStore(s, step, key)
      ensures key !in s.store.decisions && key in Next(s, step).store.decisions
    {
      StoreCreditSeals(s, step, key);
    }
    forall s: Tables, step | key in s.store.decisions ensures key in Next(s, step).store.decisions {
      StoreIsAppendOnly(s, step);
    }
  }

  /** No two apps can both credit one transaction of the same application. */
  lemma AtMostOneCreditAcrossApps(s: Tables, steps: seq<Step>, key: TxKey)
    requires Inv(s)
    ensures Count(s, steps, CreditingInStore(key)) <= 1
  {
    StoreCreditsAreSealed(key);
    SealedHappensOnce(s, steps, CreditingInStore(key), DecidedFor(key));
  }

  /** A transaction can end with two decisions, though never two credits: one decided under its
      application's key is decided again, as a quarantine, exactly when a new delivery finds that the
      registry no longer gives its app that application. */
  lemma SecondDecisionIff(s: Tables, e: Event, receipt: Uuid)
    requires e !in s.store.events && Fulfill(s, e, receipt).Done?
    requires RawKey(e) !in s.store.decisions
    requires e.app in s.store.bindings && ResolvedKey(TransactionOf(e), s.store.bindings[e.app]) in s.store.decisions
    ensures RawKey(e) in Fulfill(s, e, receipt).tables.store.decisions <==> Application(s, e).None?
    ensures Application(s, e).None? ==> Fulfill(s, e, receipt).tables.store.decisions[RawKey(e)].Quarantined?
  {
  }

  // At most one charge per episode

  /** The step charges this wallet for this episode. */
  ghost predicate ChargesWallet(s: Tables, step: Step, w: WalletId, episode: EpisodeId) {
    && step.Spend? && Next(s, step).ledger != s.ledger
    && WalletFor(s, step.request.who.id, step.request.wallet) == w && step.request.terms.episode == episode
  }

  ghost function Charging(w: WalletId, episode: EpisodeId): Deed { (s, step) => ChargesWallet(s, step, w, episode) }

  ghost predicate HasPaid(s: Tables, w: WalletId, episode: EpisodeId) {
    exists k :: ChargedFor(s.spending.unlocks, k, w, episode)
  }

  ghost function Paid(w: WalletId, episode: EpisodeId): Tables -> bool { (s: Tables) => HasPaid(s, w, episode) }

  /** Receipts and cancellations only grow, and a new one is for a request without the other. */
  ghost predicate Grown(before: Spending, after: Spending) {
    && Extends(before.unlocks, after.unlocks) && Extends(before.cancellations, after.cancellations)
    && (forall key :: key in after.unlocks && key !in before.unlocks ==> key !in before.cancellations)
    && (forall key :: key in after.cancellations && key !in before.cancellations ==> key !in before.unlocks)
  }

  /** Receipts are never removed or rewritten, and a new one is for a request without an outcome. */
  lemma ReceiptsAreAppendOnly(s: Tables, step: Step)
    requires Inv(s)
    ensures Grown(s.spending, Next(s, step).spending)
  {
    if step.Spend? {
      SpendKeepsReceipts(s, step.request);
    } else if step.Resolve? {
      ResolveKeepsReceipts(s, step.request);
    } else {
      OnlySpendingStepsTouchReceipts(s, step);
    }
  }

  lemma SpendKeepsReceipts(s: Tables, r: Request)
    requires Inv(s)
    ensures Grown(s.spending, After(s, UnlockEpisode(s, r)).spending)
  {
    if Refused(s, r).Some? {
    } else if Completion(s, r.who.id, r.id).Some? {
      ReplayChangesNothing(s, r);
    } else {
      KeyIsNew(s, r);
    }
  }

  lemma ResolveKeepsCancellations(s: Tables, r: Request)
    ensures Extends(s.spending.cancellations, After(s, ResolveUnlock(s, r)).spending.cancellations)
  {
    if Unresolvable(s, r).Some? {
    } else {
    }
  }

  lemma ResolveKeepsReceipts(s: Tables, r: Request)
    ensures Grown(s.spending, After(s, ResolveUnlock(s, r)).spending)
  {
    ResolveNeverCharges(s, r);
    ResolveKeepsCancellations(s, r);
    ResolveOnlyCancels(s, r);
  }

  lemma ChargeSeals(s: Tables, step: Step, w: WalletId, episode: EpisodeId)
    requires Inv(s) && ChargesWallet(s, step, w, episode)
    ensures !HasPaid(s, w, episode) && HasPaid(Next(s, step), w, episode)
  {
    var r := step.request;
    UnlockMovesCoinsIff(s, r);
    assert ChargedFor(Next(s, step).spending.unlocks, (w, r.id), w, episode);
    PriceIsPositive(s, r);
    WalletIssued(s, r.who.id, r.wallet);
    assert Held(s, r.who.id, r.terms.episode).None?;
  }

  lemma PriceIsPositive(s: Tables, r: Request)
    requires Chargeable(s, r)
    ensures r.terms.price > 0
  {
  }

  lemma ChargesAreSealed(w: WalletId, episode: EpisodeId)
    ensures Seals(Charging(w, episode), Paid(w, episode))
  {
    forall s, step | Inv(s) && ChargesWallet(s, step, w, episode)
      ensures !HasPaid(s, w, episode) && HasPaid(Next(s, step), w, episode)
    {
      ChargeSeals(s, step, w, episode);
    }
    forall s: Tables, step | Inv(s) && HasPaid(s, w, episode) ensures HasPaid(Next(s, step), w, episode) {
      ReceiptsAreAppendOnly(s, step);
      var k :| ChargedFor(s.spending.unlocks, k, w, episode);
      assert ChargedFor(Next(s, step).spending.unlocks, k, w, episode);
    }
  }

  /** No wallet is ever charged twice for one episode, whatever request identifiers, price changes,
      rewards, staff edits and redeliveries occur. */
  lemma AtMostOneCharge(s: Tables, steps: seq<Step>, w: WalletId, episode: EpisodeId)
    requires Inv(s)
    ensures Count(s, steps, Charging(w, episode)) <= 1
  {
    ChargesAreSealed(w, episode);
    SealedHappensOnce(s, steps, Charging(w, episode), Paid(w, episode));
  }

  // One terminal outcome per request

  /** The step completes this request or charges for it. */
  ghost predicate ActsOn(s: Tables, step: Step, key: RequestKey) {
    && step.Spend? && (WalletFor(s, step.request.who.id, step.request.wallet), step.request.id) == key
    && (Next(s, step).ledger != s.ledger || Next(s, step).spending != s.spending)
  }

  ghost function ActingOn(key: RequestKey): Deed { (s, step) => ActsOn(s, step, key) }

  ghost predicate HasOutcome(s: Tables, key: RequestKey) {
    key in s.spending.unlocks || key in s.spending.cancellations
  }

  ghost function OutcomeOf(key: RequestKey): Tables -> bool { (s: Tables) => HasOutcome(s, key) }

  lemma ActionSeals(s: Tables, step: Step, key: RequestKey)
    requires Inv(s) && ActsOn(s, step, key)
    ensures !HasOutcome(s, key) && HasOutcome(Next(s, step), key)
  {
    var r := step.request;
    if Refused(s, r).Some? {
    } else if Completion(s, r.who.id, r.id).Some? {
      ReplayChangesNothing(s, r);
    } else {
      KeyIsNew(s, r);
    }
  }

  lemma ActionsAreSealed(key: RequestKey)
    ensures Seals(ActingOn(key), OutcomeOf(key))
  {
    forall s, step | Inv(s) && ActsOn(s, step, key) ensures !HasOutcome(s, key) && HasOutcome(Next(s, step), key) {
      ActionSeals(s, step, key);
    }
    forall s: Tables, step | Inv(s) && HasOutcome(s, key) ensures HasOutcome(Next(s, step), key) {
      ReceiptsAreAppendOnly(s, step);
    }
  }

  /** A request is acted on at most once; after it was answered - completed or cancelled - no later run
      charges it, grants anything for it or completes it. */
  lemma ActedOnAtMostOnce(s: Tables, steps: seq<Step>, key: RequestKey)
    requires Inv(s)
    ensures Count(s, steps, ActingOn(key)) <= 1
    ensures HasOutcome(s, key) ==> Count(s, steps, ActingOn(key)) == 0
  {
    ActionsAreSealed(key);
    SealedHappensOnce(s, steps, ActingOn(key), OutcomeOf(key));
  }

  /** A resolution always leaves an outcome, so a cancelled answer bars every later charge. */
  lemma ResolvedIsNeverCharged(s: Tables, r: Request, steps: seq<Step>)
    requires Inv(s) && ResolveUnlock(s, r).Done?
    ensures Count(ResolveUnlock(s, r).tables, steps, ActingOn((WalletFor(s, r.who.id, r.wallet), r.id))) == 0
  {
    ResolveKeepsInv(s, r);
    ActedOnAtMostOnce(ResolveUnlock(s, r).tables, steps, (WalletFor(s, r.who.id, r.wallet), r.id));
  }

  /** The outcome of a request never changes kind or content, and it is never both. */
  lemma {:induction false} OutcomeIsFinal(s: Tables, steps: seq<Step>, key: RequestKey)
    requires Inv(s)
    ensures var later := Run(s, steps).spending;
            && (key in s.spending.unlocks ==>
                  key in later.unlocks && later.unlocks[key] == s.spending.unlocks[key] && key !in later.cancellations)
            && (key in s.spending.cancellations ==>
                  && key in later.cancellations && later.cancellations[key] == s.spending.cancellations[key]
                  && key !in later.unlocks)
    decreases |steps|
  {
    if steps != [] {
      NextKeepsInv(s, steps[0]);
      ReceiptsAreAppendOnly(s, steps[0]);
      OutcomeIsFinal(Next(s, steps[0]), steps[1..], key);
    }
  }
}
