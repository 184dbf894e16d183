/** The purchase status a buyer reads, and how it agrees with the stored decisions and the ledger. */
module Reads {
  import opened Wrappers
  import opened Registry
  import opened Packs
  import opened Policy
  import opened Tables
  import opened Purchases
  import opened Unlocks
  import opened Accounts
  import opened Invariants
  import opened Protocol
  import opened Runs
  import opened Notifications

  /** `Shown` carries the coins once credited and the reference of the credit. */
  datatype PurchaseStatus = AwaitingVerification | Shown(reviewRequired: bool, coins: nat, reference: Uuid)

  /** The permanent key a buyer's question is looked up under. */
  function StatusKey(application: ApplicationId, transaction: string): TxKey {
    Resolved(application, "PLAY_STORE", "SANDBOX", transaction)
  }

  predicate OwnedBy(s: Tables, d: Decision, p: ProfileId) {
    && d.Credited?
    && d.identity in s.store.identities
    && s.store.identities[d.identity] in s.wallets.owners
    && s.wallets.owners[s.store.identities[d.identity]] == Some(p)
  }

  predicate NeedsReview(events: map<Event, EventRow>, key: TxKey) {
    exists e :: e in events && events[e].decision == key && events[e].status == IsQuarantined
  }

  function PurchaseStatusOf(
    s: Tables, who: ProfileRef, application: ApplicationId, product: ProductId, transaction: string)
    : Result<PurchaseStatus>
  {
    var key := StatusKey(application, transaction);
    if !s.settings.purchasesEnabled then Raised(PurchaseUnavailable)
    else if !Current(s, who) then Raised(AuthenticationFailed)
    else if key in s.store.decisions && OwnedBy(s, s.store.decisions[key], who.id)
            && s.store.decisions[key].product.product == product
    then Done(Shown(NeedsReview(s.store.events, key), s.store.decisions[key].coins, s.store.decisions[key].receipt), s)
    else Done(AwaitingVerification, s)
  }

  /** What a buyer is shown is backed by their own ledger: the coins are those of a purchase line in
      their own wallet, under the reference shown. */
  lemma ShownIsInTheLedger(
    s: Tables, who: ProfileRef, application: ApplicationId, product: ProductId, transaction: string)
    requires Inv(s)
    ensures var r := PurchaseStatusOf(s, who, application, product, transaction);
            r.Done? && r.value.Shown? ==>
              && who.id in s.wallets.walletOf
              && exists i :: 0 <= i < |s.ledger| && s.ledger[i].kind.Purchase?
                  && s.ledger[i].wallet == s.wallets.walletOf[who.id]
                  && s.ledger[i].reference == r.value.reference && s.ledger[i].amount == r.value.coins
  {
    var key := StatusKey(application, transaction);
    var r := PurchaseStatusOf(s, who, application, product, transaction);
    if r.Done? && r.value.Shown? {
      var d := s.store.decisions[key];
      assert CreditLine(s.ledger, s.store.identities, d);
      assert s.ledger[d.entry].kind.Purchase?;
    }
  }

  /** A credit is visible to its owner at once, for exactly the coins credited, and not under review. */
  lemma CreditIsVisible(s: Tables, e: Event, receipt: Uuid, who: ProfileRef)
    requires Inv(s) && Creditable(s, e, receipt)
    requires Current(s, who) && s.wallets.owners[s.store.identities[e.owner.id]] == Some(who.id)
    ensures var after := Fulfill(s, e, receipt).tables;
            PurchaseStatusOf(after, who, Application(s, e).value, e.product, e.transaction)
              == Done(Shown(false, Worth(s, e), receipt), after)
  {
    var key := ResolvedKey(TransactionOf(e), Application(s, e).value);
    var after := Fulfill(s, e, receipt).tables;
    CreditedDecision(s, e, receipt);
    ListedIsSandbox(s.settings.registry.value, e);
    assert key == StatusKey(Application(s, e).value, e.transaction);
    forall d | d in s.store.events ensures s.store.events[d].decision != key {
      assert s.store.events[d].decision in s.store.decisions;
    }
    assert !NeedsReview(after.store.events, key);
  }

  lemma ListedIsSandbox(products: seq<Product>, e: Event)
    requires WellFormed(products) && Supported(products, e)
    ensures e.store == "PLAY_STORE" && e.environment == "SANDBOX"
  {
    var p := Listed(products, e.app, e.product).value;
    var i :| 0 <= i < |products| && products[i] == p;
    assert Acceptable(Row(products[i], true));
  }

  /** The rows a credited delivery leaves. */
  lemma CreditedDecision(s: Tables, e: Event, receipt: Uuid)
    requires Creditable(s, e, receipt)
    ensures var r := Fulfill(s, e, receipt);
            var key := ResolvedKey(TransactionOf(e), Application(s, e).value);
            && r.Done?
            && r.tables.(ledger := s.ledger, store := s.store) == s
            && r.tables.store.identities == s.store.identities
            && key in r.tables.store.decisions
            && r.tables.store.decisions[key].Credited?
            && r.tables.store.decisions[key].receipt == receipt
            && r.tables.store.decisions[key].identity == e.owner.id
            && r.tables.store.decisions[key].coins == Worth(s, e)
            && r.tables.store.decisions[key].product.product == e.product
            && r.tables.store.events == s.store.events[e := EventRow(key, IsCredited, VerifiedPurchase)]
  {
    assert KeyOf(e) == KeyOf(e);
    SettleMovesCoinsIff(s, e, receipt, Gather(s, e, receipt));
  }

  // Over runs

  lemma {:induction false} StoreOnlyGrows(s: Tables, steps: seq<Step>)
    ensures var later := Run(s, steps).store;
            && Extends(s.store.identities, later.identities)
            && Extends(s.store.decisions, later.decisions)
            && Extends(s.store.events, later.events)
    decreases |steps|
  {
    if steps != [] {
      StoreIsAppendOnly(s, steps[0]);
      StoreOnlyGrows(Next(s, steps[0]), steps[1..]);
    }
  }

  /** A profile identifier is never reused. */
  lemma PeopleAreNew(s: Tables, step: Step, p: ProfileId)
    requires p < s.people.nextProfile
    ensures p < Next(s, step).people.nextProfile
    ensures p in Next(s, step).people.profiles ==> p in s.people.profiles
  {
    if step.SignIn? || step.Consent? || step.DeleteAccount? {
    } else {
      Lifecycles.OthersKeepPeople(s, step);
    }
  }

  lemma {:induction false} GoneStaysGone(s: Tables, steps: seq<Step>, p: ProfileId)
    requires p < s.people.nextProfile && p !in s.people.profiles
    ensures p !in Run(s, steps).people.profiles
    decreases |steps|
  {
    if steps != [] {
      PeopleAreNew(s, steps[0], p);
      GoneStaysGone(Next(s, steps[0]), steps[1..], p);
    }
  }

  lemma OwnerStepsAside(s: Tables, step: Step, w: WalletId, p: ProfileId)
    requires w in s.wallets.owners && s.wallets.owners[w] == Some(p) && p in Next(s, step).people.profiles
    ensures w in Next(s, step).wallets.owners && Next(s, step).wallets.owners[w] == Some(p)
  {
    if step.Spend? {
      if Refused(s, step.request).Some? {
      } else {
      }
    } else if step.Resolve? {
    } else if step.DeleteAccount? {
    } else if step.Identify? {
    } else {
      Lifecycles.OthersKeepWallets(s, step);
    }
  }

  /** While an account exists it keeps its wallet. */
  lemma {:induction false} OwnerIsKept(s: Tables, steps: seq<Step>, w: WalletId, p: ProfileId)
    requires Inv(s) && w in s.wallets.owners && s.wallets.owners[w] == Some(p) && p in Run(s, steps).people.profiles
    ensures w in Run(s, steps).wallets.owners && Run(s, steps).wallets.owners[w] == Some(p)
    decreases |steps|
  {
    if steps != [] {
      var after := Next(s, steps[0]);
      NextKeepsInv(s, steps[0]);
      PeopleAreNew(s, steps[0], p);
      if p in after.people.profiles {
        OwnerStepsAside(s, steps[0], w, p);
        OwnerIsKept(after, steps[1..], w, p);
      } else {
        GoneStaysGone(after, steps[1..], p);
      }
    }
  }

  /** Once shown a credit, its owner is never again told to await verification: every later answer
      shows the same coins and reference, and a review once required stays required. */
  lemma ShownStaysShown(
    s: Tables, steps: seq<Step>, who: ProfileRef, application: ApplicationId, product: ProductId, transaction: string)
    requires Inv(s)
    requires var r := PurchaseStatusOf(s, who, application, product, transaction); r.Done? && r.value.Shown?
    requires PurchaseStatusOf(Run(s, steps), who, application, product, transaction).Done?
    ensures var before := PurchaseStatusOf(s, who, application, product, transaction).value;
            var after := PurchaseStatusOf(Run(s, steps), who, application, product, transaction).value;
            && after.Shown? && after.coins == before.coins && after.reference == before.reference
            && (before.reviewRequired ==> after.reviewRequired)
  {
    var key := StatusKey(application, transaction);
    StoreOnlyGrows(s, steps);
    OwnerIsKept(s, steps, s.store.identities[s.store.decisions[key].identity], who.id);
    ReviewStays(s.store.events, Run(s, steps).store.events, key);
  }

  lemma ReviewStays(before: map<Event, EventRow>, after: map<Event, EventRow>, key: TxKey)
    requires Extends(before, after)
    ensures NeedsReview(before, key) ==> NeedsReview(after, key)
  {
  }

  /** The refund reaches the shown purchase: its transaction was never decided under its raw key, and the
      registry still gives its app the application. */
  ghost predicate ReachesPurchase(s: Tables, e: Event, application: ApplicationId) {
    s.settings.registry.Some? && RawKey(e) !in s.store.decisions && Application(s, e) == Some(application)
  }

  /** A refund delivered after the credit takes nothing back, and puts the shown purchase under review
      exactly when it reaches it. */
  lemma RefundRequiresReview(
    s: Tables, who: ProfileRef, application: ApplicationId, product: ProductId, e: Event, receipt: Uuid)
    requires Inv(s)
    requires var r := PurchaseStatusOf(s, who, application, product, e.transaction); r.Done? && r.value.Shown?
    requires (e.kind.Cancellation? || e.kind.Refund?) && e.store == "PLAY_STORE" && e.environment == "SANDBOX"
    requires e !in s.store.events && Fulfill(s, e, receipt).Done?
    ensures var after := Fulfill(s, e, receipt).tables;
            var before := PurchaseStatusOf(s, who, application, product, e.transaction).value;
            && PurchaseStatusOf(after, who, application, product, e.transaction)
                 == Done(before.(reviewRequired := before.reviewRequired || ReachesPurchase(s, e, application)), after)
            && after.ledger == s.ledger
  {
    var key := StatusKey(application, e.transaction);
    var after := Fulfill(s, e, receipt).tables;
    FulfillMovesCoinsIff(s, e, receipt);
    RefundRow(s, e, receipt, application);
    FulfillKeepsDecisions(s, e, receipt);
    OnlyStoreAndLedgerChange(s, e, receipt);
    assert NeedsReview(after.store.events, key) <==>
      NeedsReview(s.store.events, key) || ReachesPurchase(s, e, application)
    by {
      ReviewGrows(s.store.events, after.store.events, e, key);
    }
  }

  lemma OnlyStoreAndLedgerChange(s: Tables, e: Event, receipt: Uuid)
    ensures var after := After(s, Fulfill(s, e, receipt));
            && after.people == s.people && after.wallets == s.wallets && after.settings == s.settings
            && after.store.identities == s.store.identities
  {
  }

  lemma ReviewGrows(before: map<Event, EventRow>, after: map<Event, EventRow>, e: Event, key: TxKey)
    requires e in after && e !in before && after == before[e := after[e]]
    ensures NeedsReview(after, key) <==>
              NeedsReview(before, key) || (after[e].decision == key && after[e].status == IsQuarantined)
  {
    if d :| d in before && before[d].decision == key && before[d].status == IsQuarantined {
      assert after[d] == before[d];
    }
  }

  /** The row of a new refund of a shown purchase: quarantined when it reaches the purchase's decision. */
  lemma RefundRow(s: Tables, e: Event, receipt: Uuid, application: ApplicationId)
    requires e.kind.Cancellation? || e.kind.Refund?
    requires e.store == "PLAY_STORE" && e.environment == "SANDBOX"
    requires e !in s.store.events && Fulfill(s, e, receipt).Done?
    requires var key := StatusKey(application, e.transaction);
             key in s.store.decisions && s.store.decisions[key].Credited?
    ensures var after := Fulfill(s, e, receipt).tables.store.events;
            && e in after && after == s.store.events[e := after[e]]
            && (after[e].decision == StatusKey(application, e.transaction) <==> ReachesPurchase(s, e, application))
            && (ReachesPurchase(s, e, application) ==> after[e].status == IsQuarantined)
  {
    var key := StatusKey(application, e.transaction);
    assert Application(s, e) == Some(application) ==> KeyFor(e, Application(s, e)) == key;
    assert KeyFor(e, Application(s, e)) == key ==> Application(s, e) == Some(application);
  }
}
