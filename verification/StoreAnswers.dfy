/** What packs are offered and credited, when a delivery moves coins and how many, what is recorded and
    answered, and what a webhook and a buyer's question lead to - stated over the stored rows. */
module StoreAnswers {
  import opened Wrappers
  import opened Registry
  import opened Packs
  import opened Policy
  import opened Tables
  import opened Purchases
  import opened Invariants
  import opened Protocol
  import opened Runs
  import opened Lifecycles
  import opened Notifications
  import opened Reads
  import Answers
  import Guards

  // Coin packs

  ghost predicate OnSale(pack: Pack, now: Instant) {
    && pack.createdAt <= now
    && (pack.startsAt.Some? ==> pack.startsAt.value <= now)
    && (pack.endsAt.Some? ==> now < pack.endsAt.value)
    && (pack.retiredAt.Some? ==> now < pack.retiredAt.value)
  }

  /** A product is offered at the coins of its best pack on sale; at the registry's coins when it never had
      a pack; and not at all otherwise. */
  lemma OfferIff(packs: seq<Pack>, product: Product, now: Instant)
    requires Sound(packs, now)
    ensures var offer := OfferFor(packs, product, now);
            && (offer.Some? <==>
                  || (exists pack :: pack in packs && pack.product == product.product && OnSale(pack, now))
                  || (forall pack :: pack in packs ==> pack.product != product.product))
            && (offer.Some? ==>
                  && offer.value.product == product
                  && (forall pack :: pack in packs && pack.product == product.product && OnSale(pack, now) ==>
                        pack.coins <= offer.value.coins)
                  && ((forall pack :: pack in packs ==> pack.product != product.product) ==>
                        offer.value == Offer(product, product.coins, 0, 0, Display("", false)))
                  && (!(forall pack :: pack in packs ==> pack.product != product.product) ==>
                        exists pack :: pack in packs && pack.product == product.product && OnSale(pack, now)
                          && offer.value == Offer(product, pack.coins, pack.sortOrder, pack.bonus, pack.display)))
  {
    forall id: nat | id < |packs| ensures Live(packs[id], now) <==> OnSale(packs[id], now) {
      assert Storable(packs[id]);
    }
    var best := Best(packs, product.product, now);
    if best.Some? {
      assert packs[best.value] in packs;
      forall pack | pack in packs && pack.product == product.product && OnSale(pack, now)
        ensures pack.coins <= packs[best.value].coins
      {
        var id: nat :| id < |packs| && packs[id] == pack;
        assert LiveFor(packs, product.product, now, id);
      }
    } else {
      forall pack | pack in packs && pack.product == product.product ensures !OnSale(pack, now) {
        var id: nat :| id < |packs| && packs[id] == pack;
        assert !LiveFor(packs, product.product, now, id);
      }
    }
  }

  /** A new pack is saved exactly when its bonus is at most 200 per cent, its coins - the base and the bonus
      rounded down - fit, and its schedule is in order; an inactive one is retired at once. */
  lemma AddPackIff(
    packs: seq<Pack>, product: ProductId, base: nat, bonus: nat, sortOrder: nat, display: Display,
    startsAt: Option<Instant>, endsAt: Option<Instant>, active: bool, now: Instant)
    ensures var coins := base + base * bonus / 100;
            var added := AddPack(packs, product, base, bonus, sortOrder, display, startsAt, endsAt, active, now);
            && (added.Some? <==>
                  && bonus <= 200 && coins <= 2147483647
                  && (startsAt.Some? && endsAt.Some? ==> startsAt.value < endsAt.value))
            && (added.Some? ==>
                  var retiredAt := if active then None else Some(now);
                  added.value == packs + [Pack(product, base, bonus, coins, sortOrder, display,
                                               startsAt, endsAt, active, retiredAt, now)])
  {
  }

  /** A pack is changed exactly when amounts, schedule, product and creation stay, and a retired one is not
      taken back; retiring it is stamped with the present. */
  lemma EditPackIff(packs: seq<Pack>, id: nat, edited: Pack, now: Instant)
    requires Sound(packs, now) && id < |packs| && edited.retiredAt == packs[id].retiredAt
    ensures var row, changed := packs[id], EditPack(packs, id, edited, now);
            && (changed.Some? <==>
                  && edited.product == row.product && edited.base == row.base && edited.bonus == row.bonus
                  && edited.startsAt == row.startsAt && edited.endsAt == row.endsAt
                  && edited.createdAt == row.createdAt && (edited.active ==> row.active))
            && (changed.Some? ==>
                  changed.value == packs[id := row.(
                    sortOrder := edited.sortOrder, display := edited.display, active := edited.active,
                    retiredAt := if row.active && !edited.active then Some(now) else row.retiredAt)])
  {
  }

  /** The pack counts for a payment: it is of the product, was created and started by the payment, and
      neither ended nor was retired 24 hours before it or earlier. */
  ghost predicate Counts(pack: Pack, product: ProductId, paidAt: Instant) {
    && pack.product == product && pack.createdAt <= paidAt
    && (pack.startsAt.Some? ==> pack.startsAt.value <= paidAt)
    && (pack.endsAt.Some? ==> paidAt < pack.endsAt.value + 86_400_000_000)
    && (pack.retiredAt.Some? ==> paidAt < pack.retiredAt.value + 86_400_000_000)
  }

  /** A payment from the future counts as one made now. */
  function PaidBy(purchasedAtMs: nat, now: Instant): Instant {
    if now <= purchasedAtMs * 1000 then now else purchasedAtMs * 1000
  }

  /** The coins are the registry's or those of a pack that counts, and no such pack has more. */
  ghost predicate IsWorth(packs: seq<Pack>, product: Product, purchasedAtMs: nat, now: Instant, coins: int) {
    && product.coins <= coins
    && (forall pack :: pack in packs && Counts(pack, product.product, PaidBy(purchasedAtMs, now)) ==>
          pack.coins <= coins)
    && (|| coins == product.coins
        || exists pack ::
             pack in packs && Counts(pack, product.product, PaidBy(purchasedAtMs, now)) && pack.coins == coins)
  }

  lemma CreditedCoinsAre(packs: seq<Pack>, product: Product, purchasedAtMs: nat, now: Instant, coins: int)
    ensures CreditedCoins(packs, product, purchasedAtMs, now) == coins <==>
            IsWorth(packs, product, purchasedAtMs, now, coins)
  {
    var paidAt := PaidBy(purchasedAtMs, now);
    forall pack | pack in packs
      ensures Honored(pack, product.product, PaidAt(purchasedAtMs, now)) <==> Counts(pack, product.product, paidAt)
    {
    }
  }

  /** A pack that was ever on sale counts for a payment exactly when it was on sale at some instant of the
      24 hours up to it. */
  lemma CountsIffRecentlyOnSale(pack: Pack, paidAt: Instant, ever: Instant)
    requires OnSale(pack, ever)
    ensures Counts(pack, pack.product, paidAt) <==>
            exists t :: paidAt - 86_400_000_000 <= t <= paidAt && OnSale(pack, t)
  {
    if Counts(pack, pack.product, paidAt) {
      var begins := if pack.startsAt.Some? && pack.startsAt.value > pack.createdAt then pack.startsAt.value
                    else pack.createdAt;
      var since := paidAt - 86_400_000_000;
      assert OnSale(pack, if begins < since then since else begins);
    }
  }

  /** Scheduled, and retired before it started. */
  function Recalled(): Pack {
    Pack("p", 5, 0, 5, 0, Display("", false), Some(10_000), None, false, Some(5_000), 0)
  }

  function Floor(): Product { Product("app", "application", "p", 1, "PLAY_STORE", "SANDBOX") }

  lemma RecalledIsSound()
    ensures Sound([Recalled()], 12_000)
  {
  }

  lemma RecalledNeverSold(t: Instant)
    ensures !OnSale(Recalled(), t)
  {
  }

  lemma RecalledIsWorth()
    ensures IsWorth([Recalled()], Floor(), 12, 12_000, 5)
  {
    assert Counts(Recalled(), "p", PaidBy(12, 12_000));
    assert Recalled() in [Recalled()];
  }

  /** A pack that never was on sale may be credited all the same, because its retirement is recent. */
  lemma NeverOnSaleMayBeCredited()
    ensures exists packs, pack ::
      && Sound(packs, 12_000) && packs == [pack] && (forall t :: !OnSale(pack, t))
      && CreditedCoins(packs, Floor(), 12, 12_000) == pack.coins > Floor().coins
  {
    var packs, pack := [Recalled()], Recalled();
    RecalledIsSound();
    forall t ensures !OnSale(pack, t) {
      RecalledNeverSold(t);
    }
    RecalledIsWorth();
    CreditedCoinsAre(packs, Floor(), 12, 12_000, 5);
    assert Sound(packs, 12_000) && packs == [pack];
  }

  // When a delivery moves coins

  /** The owner named is an identity whose wallet belongs to a current account. */
  ghost predicate Owned(s: Tables, owner: Owner) {
    && owner.Canonical? && owner.id in s.store.identities
    && var w := s.store.identities[owner.id];
    && w in s.wallets.owners && s.wallets.owners[w].Some?
    && s.wallets.owners[w].value in s.people.profiles
    && s.people.profiles[s.wallets.owners[w].value].uid !in s.people.deletions
  }

  /** The registry gives the app this application, the app is bound to no other, and no other app to it. */
  ghost predicate Resolves(s: Tables, e: Event, application: ApplicationId) {
    && s.settings.registry.Some?
    && (exists p :: p in s.settings.registry.value && p.app == e.app && p.application == application)
    && (if e.app in s.store.bindings then s.store.bindings[e.app] == application
        else forall app :: app in s.store.bindings ==> s.store.bindings[app] != application)
  }

  ghost predicate Unheard(s: Tables, e: Event) {
    forall f :: f in s.store.events ==> f.app != e.app || f.id != e.id
  }

  ghost predicate Sells(s: Tables, e: Event, product: Product) {
    && s.settings.registry.Some? && product in s.settings.registry.value
    && product.app == e.app && product.product == e.product
    && product.store == e.store && product.environment == e.environment
  }

  /** The line may be added to the wallet. */
  ghost predicate Fits(s: Tables, w: WalletId, reference: Uuid, coins: int) {
    && 1 <= coins <= 2147483647
    && (forall i :: 0 <= i < |s.ledger| ==> s.ledger[i].reference != reference)
    && 0 <= Balance(s.ledger, w) + coins <= 9007199254740991
  }

  /** The transaction has no decision yet, under either key. */
  ghost predicate Open(s: Tables, e: Event, application: ApplicationId) {
    && Raw(Transaction(e.app, e.store, e.environment, e.transaction)) !in s.store.decisions
    && Resolved(application, e.store, e.environment, e.transaction) !in s.store.decisions
  }

  ghost predicate Genuine(e: Event) {
    e.kind.NonRenewingPurchase? && e.quantityValid && e.identityValid
  }

  /** A new delivery of an open transaction earns these coins of this product. */
  ghost predicate Earns(s: Tables, e: Event, product: Product, coins: int) {
    && s.settings.purchasesEnabled && Unheard(s, e) && Genuine(e) && Sells(s, e, product)
    && Resolves(s, e, product.application) && Open(s, e, product.application) && Owned(s, e.owner)
    && IsWorth(s.packs, product, e.purchasedAtMs, s.clock, coins)
  }

  /** And the ledger can take them. */
  ghost predicate Payable(s: Tables, e: Event, receipt: Uuid, product: Product, coins: int) {
    Earns(s, e, product, coins) && Fits(s, s.store.identities[e.owner.id], receipt, coins)
  }

  lemma ListedIff(products: seq<Product>, app: AppId, id: ProductId, product: Product)
    requires WellFormed(products)
    ensures Listed(products, app, id) == Some(product) <==>
            product in products && product.app == app && product.product == id
  {
    if product in products && product.app == app && product.product == id {
      var found := Listed(products, app, id).value;
      var i :| 0 <= i < |products| && products[i] == product;
      var j :| 0 <= j < |products| && products[j] == found;
      assert i < j ==> Compatible(products[i], products[j]);
      assert j < i ==> Compatible(products[j], products[i]);
    }
  }

  lemma SameApplication(products: seq<Product>, p: Product, q: Product)
    requires WellFormed(products) && p in products && q in products && p.app == q.app
    ensures p.application == q.application
  {
    var i :| 0 <= i < |products| && products[i] == p;
    var j :| 0 <= j < |products| && products[j] == q;
    assert i < j ==> Compatible(products[i], products[j]);
    assert j < i ==> Compatible(products[j], products[i]);
  }

  lemma ResolvesIff(s: Tables, e: Event, application: ApplicationId)
    requires s.settings.registry.Some? && WellFormed(s.settings.registry.value)
    ensures Application(s, e) == Some(application) <==> Resolves(s, e, application)
  {
    ApplicationIff(s, e, application);
    assert application in s.store.bindings.Values <==>
      exists app :: app in s.store.bindings && s.store.bindings[app] == application;
  }

  lemma UnheardIff(s: Tables, e: Event)
    ensures Conflict(s, e) <==> !Unheard(s, e)
  {
    if f :| f in s.store.events && f.app == e.app && f.id == e.id {
      assert KeyOf(f) == KeyOf(e);
    }
  }

  lemma EarnedFacts(s: Tables, e: Event, product: Product, coins: int)
    requires Inv(s) && Earns(s, e, product, coins)
    ensures Listed(s.settings.registry.value, e.app, e.product) == Some(product)
    ensures Application(s, e) == Some(product.application) && !Conflict(s, e) && Worth(s, e) == coins
    ensures Refusal(s, e, Conflict(s, e)).None?
  {
    ListedIff(s.settings.registry.value, e.app, e.product, product);
    ResolvesIff(s, e, product.application);
    UnheardIff(s, e);
    CreditedCoinsAre(s.packs, product, e.purchasedAtMs, s.clock, coins);
  }

  lemma PayableIsCreditable(s: Tables, e: Event, receipt: Uuid, product: Product, coins: int)
    requires Inv(s) && Payable(s, e, receipt, product, coins)
    ensures Creditable(s, e, receipt) && Worth(s, e) == coins && Application(s, e) == Some(product.application)
  {
    EarnedFacts(s, e, product, coins);
  }

  lemma ApplicationOfProduct(s: Tables, e: Event, product: Product)
    requires s.settings.registry.Some? && WellFormed(s.settings.registry.value)
    requires Sells(s, e, product) && Application(s, e).Some?
    ensures Application(s, e) == Some(product.application)
  {
    ResolvesIff(s, e, Application(s, e).value);
    var p :| p in s.settings.registry.value && p.app == e.app && p.application == Application(s, e).value;
    SameApplication(s.settings.registry.value, p, product);
  }

  lemma CreditableIsPayable(s: Tables, e: Event, receipt: Uuid) returns (product: Product)
    requires Inv(s) && Creditable(s, e, receipt)
    ensures Payable(s, e, receipt, product, Worth(s, e))
  {
    product := Listed(s.settings.registry.value, e.app, e.product).value;
    RefusalFreeEarns(s, e, product);
  }

  /** In every reachable state a delivery moves coins exactly when it is payable, and then it adds one line:
      the coins it is worth, to the wallet of the identity it names. */
  lemma DeliveryPaysIff(s: Tables, e: Event, receipt: Uuid)
    requires Inv(s)
    ensures After(s, Fulfill(s, e, receipt)).ledger != s.ledger <==>
            exists product, coins :: Payable(s, e, receipt, product, coins)
  {
    FulfillMovesCoinsIff(s, e, receipt);
    if Creditable(s, e, receipt) {
      var product := CreditableIsPayable(s, e, receipt);
    }
    if product, coins :| Payable(s, e, receipt, product, coins) {
      PayableIsCreditable(s, e, receipt, product, coins);
    }
  }

  lemma PaymentIsExact(s: Tables, e: Event, receipt: Uuid, product: Product, coins: int)
    requires Inv(s) && Payable(s, e, receipt, product, coins)
    ensures var answer, w := Fulfill(s, e, receipt), s.store.identities[e.owner.id];
            var key := Resolved(product.application, e.store, e.environment, e.transaction);
            && answer.Done? && answer.value == EventRow(key, IsCredited, VerifiedPurchase)
            && answer.tables.ledger == s.ledger + [Entry(w, receipt, Purchase, coins, s.clock)]
            && key in answer.tables.store.decisions
            && answer.tables.store.decisions[key] ==
                 Credited(Claim(key, e.product, e.owner, e.purchasedAtMs), receipt, e.owner.id, |s.ledger|, coins,
                          product)
  {
    PayableIsCreditable(s, e, receipt, product, coins);
    ListedIff(s.settings.registry.value, e.app, e.product, product);
    FulfillCreditsWorth(s, e, receipt);
    CreditedDecision(s, e, receipt);
  }

  // What else a delivery is answered, and what it records

  /** A delivery is accepted exactly while purchases are on and it is stored already, or the registry loads
      and the ledger can take whatever the delivery earns. */
  lemma FulfillIsDoneIff(s: Tables, e: Event, receipt: Uuid)
    requires Inv(s)
    ensures Fulfill(s, e, receipt).Done? <==>
      && s.settings.purchasesEnabled
      && (|| e in s.store.events
          || (&& s.settings.registry.Some?
              && forall product, coins :: Earns(s, e, product, coins) ==>
                   Fits(s, s.store.identities[e.owner.id], receipt, coins)))
  {
    if s.settings.purchasesEnabled && e !in s.store.events && s.settings.registry.Some? {
      if Fulfill(s, e, receipt).Done? {
        forall product, coins | Earns(s, e, product, coins)
          ensures Fits(s, s.store.identities[e.owner.id], receipt, coins)
        {
          DoneMeansFits(s, e, receipt, product, coins);
        }
      } else {
        var product := UnpostableEarns(s, e, receipt);
      }
    }
  }

  lemma DoneMeansFits(s: Tables, e: Event, receipt: Uuid, product: Product, coins: int)
    requires Inv(s) && e !in s.store.events && Fulfill(s, e, receipt).Done? && Earns(s, e, product, coins)
    ensures Fits(s, s.store.identities[e.owner.id], receipt, coins)
  {
    EarnedFacts(s, e, product, coins);
    UnrefusedMeansPostable(s, e, receipt);
  }

  lemma UnrefusedMeansPostable(s: Tables, e: Event, receipt: Uuid)
    requires e !in s.store.events && Fulfill(s, e, receipt).Done?
    requires Application(s, e).Some? && Refusal(s, e, Conflict(s, e)).None?
    requires RawKey(e) !in s.store.decisions && KeyFor(e, Application(s, e)) !in s.store.decisions
    ensures Postable(s, s.store.identities[e.owner.id], receipt, Purchase, Worth(s, e))
  {
  }

  /** The one way in which an ordinary delivery is rejected: everything is right but the line. */
  lemma RejectedMeans(s: Tables, e: Event, receipt: Uuid)
    requires s.settings.purchasesEnabled && e !in s.store.events && s.settings.registry.Some?
    requires Fulfill(s, e, receipt).Raised?
    ensures Application(s, e).Some? && Refusal(s, e, Conflict(s, e)).None?
    ensures RawKey(e) !in s.store.decisions && KeyFor(e, Application(s, e)) !in s.store.decisions
    ensures !Postable(s, s.store.identities[e.owner.id], receipt, Purchase, Worth(s, e))
  {
  }

  lemma UnpostableEarns(s: Tables, e: Event, receipt: Uuid) returns (product: Product)
    requires Inv(s) && s.settings.purchasesEnabled && e !in s.store.events && s.settings.registry.Some?
    requires Fulfill(s, e, receipt).Raised?
    ensures Earns(s, e, product, Worth(s, e))
    ensures !Fits(s, s.store.identities[e.owner.id], receipt, Worth(s, e))
  {
    RejectedMeans(s, e, receipt);
    product := Listed(s.settings.registry.value, e.app, e.product).value;
    RefusalFreeEarns(s, e, product);
  }

  lemma RefusalFreeEarns(s: Tables, e: Event, product: Product)
    requires s.settings.registry.Some? && WellFormed(s.settings.registry.value) && s.settings.purchasesEnabled
    requires Application(s, e).Some? && Refusal(s, e, Conflict(s, e)).None?
    requires RawKey(e) !in s.store.decisions && KeyFor(e, Application(s, e)) !in s.store.decisions
    requires Listed(s.settings.registry.value, e.app, e.product) == Some(product)
    ensures Earns(s, e, product, Worth(s, e))
  {
    ListedIff(s.settings.registry.value, e.app, e.product, product);
    ApplicationOfProduct(s, e, product);
    ResolvesIff(s, e, product.application);
    UnheardIff(s, e);
    CreditedCoinsAre(s.packs, product, e.purchasedAtMs, s.clock, Worth(s, e));
  }

  /** The key a delivery's transaction has now: its application's, if it resolves to one. */
  ghost predicate IsKeyOf(s: Tables, e: Event, key: TxKey) {
    || (key.Raw? && key == Raw(Transaction(e.app, e.store, e.environment, e.transaction))
        && forall a :: !Resolves(s, e, a))
    || (key.Resolved? && key == Resolved(key.application, e.store, e.environment, e.transaction)
        && Resolves(s, e, key.application))
  }

  lemma KeyIs(s: Tables, e: Event, key: TxKey)
    requires s.settings.registry.Some? && WellFormed(s.settings.registry.value)
    ensures KeyFor(e, Application(s, e)) == key <==> IsKeyOf(s, e, key)
  {
    var application := Application(s, e);
    if application.Some? {
      ResolvesIff(s, e, application.value);
    }
    forall a ensures application == Some(a) <==> Resolves(s, e, a) {
      ResolvesIff(s, e, a);
    }
  }

  /** What an accepted delivery writes: its own row, the binding of its app, and the decision of its
      transaction - the one stored under the raw key if there is one, or else under the delivery's key. */
  lemma FulfillWrites(s: Tables, e: Event, receipt: Uuid, key: TxKey)
    requires Inv(s) && e !in s.store.events && Fulfill(s, e, receipt).Done? && IsKeyOf(s, e, key)
    ensures var answer := Fulfill(s, e, receipt);
            var raw := Raw(Transaction(e.app, e.store, e.environment, e.transaction));
            var used := if raw in s.store.decisions then raw else key;
            var after := answer.tables.store;
            && answer.value.decision == used && used in after.decisions
            && (used in s.store.decisions ==> after.decisions[used] == s.store.decisions[used])
            && after.decisions == s.store.decisions[used := after.decisions[used]]
            && after.events == s.store.events[e := answer.value]
            && after.bindings ==
                 (if key.Resolved? then s.store.bindings[e.app := key.application] else s.store.bindings)
            && after.identities == s.store.identities
            && answer.tables == s.(ledger := answer.tables.ledger, store := after)
  {
    KeyIs(s, e, key);
  }

  ghost predicate IsSold(s: Tables, e: Event) {
    exists product :: Sells(s, e, product)
  }

  lemma SupportedIff(s: Tables, e: Event)
    requires s.settings.registry.Some? && WellFormed(s.settings.registry.value)
    ensures Supported(s.settings.registry.value, e) <==> IsSold(s, e)
  {
    var products := s.settings.registry.value;
    if Supported(products, e) {
      ListedIff(products, e.app, e.product, Listed(products, e.app, e.product).value);
      assert Sells(s, e, Listed(products, e.app, e.product).value);
    }
    if product :| Sells(s, e, product) {
      ListedIff(products, e.app, e.product, product);
    }
  }

  lemma NewDecisionHasClaim(s: Tables, e: Event, receipt: Uuid, key: TxKey)
    requires Inv(s) && e !in s.store.events && Fulfill(s, e, receipt).Done? && IsKeyOf(s, e, key)
    requires Raw(Transaction(e.app, e.store, e.environment, e.transaction)) !in s.store.decisions
    requires key !in s.store.decisions
    ensures var after := Fulfill(s, e, receipt).tables.store.decisions;
            && key in after && after[key].claim == Claim(key, e.product, e.owner, e.purchasedAtMs)
            && (after[key].Credited? <==> Creditable(s, e, receipt))
            && (after[key].Quarantined? ==>
                  Some(after[key].reason) == RefusalFor(s, e, Application(s, e).Some?, Conflict(s, e)))
  {
    KeyIs(s, e, key);
    FulfillMovesCoinsIff(s, e, receipt);
    SettleMovesCoinsIff(s, e, receipt, Gather(s, e, receipt));
  }

  lemma RefusalIs(s: Tables, e: Event, key: TxKey)
    requires Inv(s) && s.settings.registry.Some? && IsKeyOf(s, e, key)
    ensures var refusal := RefusalFor(s, e, Application(s, e).Some?, Conflict(s, e));
            refusal.Some? ==> refusal.value == FirstWrong(s, e, key.Resolved?)
  {
    KeyIs(s, e, key);
    SupportedIff(s, e);
    UnheardIff(s, e);
  }

  /** The decision of a transaction seen for the first time: a credit exactly when it is payable, and
      otherwise a quarantine for the first thing that is wrong. */
  lemma NewDecisionIs(s: Tables, e: Event, receipt: Uuid, key: TxKey)
    requires Inv(s) && e !in s.store.events && Fulfill(s, e, receipt).Done? && IsKeyOf(s, e, key)
    requires Raw(Transaction(e.app, e.store, e.environment, e.transaction)) !in s.store.decisions
    requires key !in s.store.decisions
    ensures var after := Fulfill(s, e, receipt).tables.store.decisions;
            && key in after && after[key].claim == Claim(key, e.product, e.owner, e.purchasedAtMs)
            && (after[key].Credited? <==> exists product, coins :: Payable(s, e, receipt, product, coins))
            && (after[key].Quarantined? ==> after[key].reason == FirstWrong(s, e, key.Resolved?))
  {
    NewDecisionHasClaim(s, e, receipt, key);
    RefusalIs(s, e, key);
    FulfillMovesCoinsIff(s, e, receipt);
    DeliveryPaysIff(s, e, receipt);
  }

  /** What is wrong with a delivery that is not payable, in the order in which it is told. */
  ghost function FirstWrong(s: Tables, e: Event, resolved: bool): Reason {
    if !resolved then UnsupportedScope
    else if !Unheard(s, e) then EventConflict
    else if !IsSold(s, e) then UnsupportedScope
    else
      match e.kind
      case Cancellation => RefundBeforeCredit
      case Refund => RefundBeforeCredit
      case OtherType(_) => UnsupportedEvent
      case NonRenewingPurchase =>
        if !e.quantityValid then InvalidQuantity
        else if !e.identityValid then IdentityConflict
        else UnknownOrDeletedOwner
  }

  /** What a new delivery is told, given the decision its transaction ends with. A conflict is told first;
      then a refund of a credit; then another claim than the decided one; then an event that is no valid
      purchase; and otherwise the decision itself. */
  lemma DeliveryIsTold(s: Tables, e: Event, receipt: Uuid, key: TxKey)
    requires Inv(s) && e !in s.store.events && Fulfill(s, e, receipt).Done? && IsKeyOf(s, e, key)
    ensures var row := Fulfill(s, e, receipt).value;
            var decision := Fulfill(s, e, receipt).tables.store.decisions[row.decision];
            var refund := e.kind.Cancellation? || e.kind.Refund?;
            var other := decision.claim != Claim(key, e.product, e.owner, e.purchasedAtMs)
              || (decision.Credited? && !e.identityValid);
            && row.decision in Fulfill(s, e, receipt).tables.store.decisions
            && (row.status == IsCredited <==> decision.Credited? && !other && Genuine(e) && Unheard(s, e))
            && (!Unheard(s, e) ==> row.reason == EventConflict)
            && (Unheard(s, e) && refund && decision.Credited? ==> row.reason == RefundAfterCredit)
            && (Unheard(s, e) && !(refund && decision.Credited?) && other ==> row.reason == TransactionConflict)
            && (Unheard(s, e) && !(refund && decision.Credited?) && !other && decision.Quarantined? ==>
                  row.reason == decision.reason)
            && (Unheard(s, e) && !refund && !other && decision.Credited? ==>
                  row.reason == if Genuine(e) then VerifiedPurchase else UnsupportedEvent)
  {
    KeyIs(s, e, key);
    UnheardIff(s, e);
    ReportedCreditedIff(s, e, receipt);
  }

  /** An account gets the identity of its wallet, a new one exactly when the wallet has none. */
  lemma IdentifyIff(s: Tables, who: ProfileRef, wallet: WalletId, identity: Uuid)
    ensures var answer := PurchaseIdentity(s, who, wallet, identity);
            var w := if who.id in s.wallets.walletOf then s.wallets.walletOf[who.id] else wallet;
            var known := exists id :: id in s.store.identities && s.store.identities[id] == w;
            && (answer.Done? <==>
                  && s.settings.purchasesEnabled && s.settings.registry.Some? && Answers.SignedIn(s, who)
                  && (who.id in s.wallets.walletOf || wallet !in s.wallets.owners)
                  && (known || identity !in s.store.identities))
            && (answer.Done? ==>
                  && answer.value == w && who.id in answer.tables.wallets.walletOf
                  && answer.tables.wallets.walletOf[who.id] == w
                  && answer.tables.store ==
                       (if known then s.store else s.store.(identities := s.store.identities[identity := w])))
  {
    var w := if who.id in s.wallets.walletOf then s.wallets.walletOf[who.id] else wallet;
    assert w in s.store.identities.Values <==> exists id :: id in s.store.identities && s.store.identities[id] == w;
  }

  /** A correction is taken exactly when the wallet has an owner and the line fits its constraints. */
  lemma CorrectionIff(s: Tables, w: WalletId, reference: Uuid, amount: int)
    ensures var fits :=
              && amount != 0 && -2147483647 <= amount <= 2147483647
              && (forall i :: 0 <= i < |s.ledger| ==> s.ledger[i].reference != reference)
              && w in s.wallets.owners && s.wallets.owners[w].Some?
              && 0 <= Balance(s.ledger, w) + amount <= 9007199254740991;
            Corrected(s, w, reference, amount) ==
              if fits then s.(ledger := s.ledger + [Entry(w, reference, Correction, amount, s.clock)]) else s
  {
  }

  // Webhooks

  /** The provider's record is of the same transaction, product, owner and time, and valid. */
  ghost predicate Agrees(record: Event, e: Event) {
    && record.app == e.app && record.store == e.store && record.environment == e.environment
    && record.transaction == e.transaction && record.product == e.product && record.owner == e.owner
    && record.purchasedAtMs == e.purchasedAtMs && record.quantityValid && record.identityValid
  }

  /** Nothing about the delivery settles it without the provider: its product is sold, it is valid, and the
      identity it names belongs to a wallet that has an owner. */
  ghost predicate WorthAsking(s: Tables, e: Event) {
    && IsSold(s, e) && e.identityValid && e.quantityValid
    && e.owner.Canonical? && e.owner.id in s.store.identities
    && s.store.identities[e.owner.id] in s.wallets.owners && s.wallets.owners[s.store.identities[e.owner.id]].Some?
  }

  /** Every notification ends in one of these ways. Cancellations, and purchases that settle themselves,
      are fulfilled as they are; any other purchase exactly if the provider's record agrees: as it is when
      the record reports it owned, and as a cancellation when it reports that. */
  lemma RoutedIff(s: Tables, e: Event, record: Option<Event>)
    requires Inv(s)
    ensures var route := Routed(s, e, record);
            var asked := e.kind.NonRenewingPurchase? && s.settings.registry.Some? && WorthAsking(s, e);
            && (route.Ignored? <==> !e.kind.NonRenewingPurchase? && !e.kind.Cancellation?)
            && (route.Misconfiguration? <==> e.kind.NonRenewingPurchase? && s.settings.registry.None?)
            && (route == PassedOn(e, false) <==>
                  || e.kind.Cancellation?
                  || (e.kind.NonRenewingPurchase? && s.settings.registry.Some? && !WorthAsking(s, e)))
            && (route == PassedOn(e, true) <==>
                  asked && record.Some? && Agrees(record.value, e) && record.value.kind.NonRenewingPurchase?)
            && (route == PassedOn(e.(kind := Cancellation), true) <==>
                  asked && record.Some? && Agrees(record.value, e) && record.value.kind.Cancellation?)
            && (route.Unavailable? <==>
                  && asked
                  && !(&& record.Some? && Agrees(record.value, e)
                       && (record.value.kind.NonRenewingPurchase? || record.value.kind.Cancellation?)))
  {
    if s.settings.registry.Some? {
      SupportedIff(s, e);
    }
  }

  /** A purchase the provider confirms is credited: if it is payable when it is fulfilled, whatever ran in
      between, it adds its one line. */
  lemma ConfirmedPurchaseIsCredited(
    s: Tables, steps: seq<Step>, e: Event, record: Event, receipt: Uuid, product: Product, coins: int)
    requires Inv(s) && e.kind.NonRenewingPurchase? && s.settings.registry.Some? && WorthAsking(s, e)
    requires Agrees(record, e) && record.kind.NonRenewingPurchase?
    requires Payable(Run(s, steps), e, receipt, product, coins)
    ensures var later := Run(s, steps);
            && Routed(s, e, Some(record)) == PassedOn(e, true)
            && Fulfill(later, e, receipt).Done?
            && Fulfill(later, e, receipt).tables.ledger ==
                 later.ledger + [Entry(later.store.identities[e.owner.id], receipt, Purchase, coins, later.clock)]
  {
    RoutedIff(s, e, Some(record));
    RunKeepsInv(s, steps);
    PaymentIsExact(Run(s, steps), e, receipt, product, coins);
  }

  /** A cancellation is always fulfilled as it is, and, once fulfilled, it is stored with its transaction
      decided and no later run credits that transaction. */
  lemma CancellationIsFulfilled(
    s: Tables, e: Event, record: Option<Event>, later: Tables, receipt: Uuid, steps: seq<Step>)
    requires Inv(s) && Inv(later) && e.kind.Cancellation?
    ensures Routed(s, e, record) == PassedOn(e, false)
    ensures later.settings.purchasesEnabled && later.settings.registry.Some? ==>
      && Fulfill(later, e, receipt).Done? && e in Fulfill(later, e, receipt).tables.store.events
      && Count(Fulfill(later, e, receipt).tables, steps, Crediting(TransactionOf(e))) == 0
  {
    RoutedIff(s, e, record);
    if later.settings.purchasesEnabled && later.settings.registry.Some? {
      FulfillIsDoneIff(later, e, receipt);
      if e !in later.store.events {
        FulfillSettles(later, e, receipt);
      }
      FirstDeliveryIsFinal(later, e, receipt, steps);
    }
  }

  // A buyer's question

  /** The buyer is shown the credit of this product under the application's key exactly when it went to the
      buyer's own wallet; it is under review exactly when a quarantined delivery is stored for it. */
  lemma StatusIff(
    s: Tables, who: ProfileRef, application: ApplicationId, product: ProductId, transaction: string)
    ensures var answer := PurchaseStatusOf(s, who, application, product, transaction);
            var key := Resolved(application, "PLAY_STORE", "SANDBOX", transaction);
            var own :=
              && key in s.store.decisions && s.store.decisions[key].Credited?
              && s.store.decisions[key].product.product == product
              && s.store.decisions[key].identity in s.store.identities
              && s.store.identities[s.store.decisions[key].identity] in s.wallets.owners
              && s.wallets.owners[s.store.identities[s.store.decisions[key].identity]] == Some(who.id);
            && (answer.Done? <==> s.settings.purchasesEnabled && Answers.SignedIn(s, who))
            && (answer.Done? ==> answer.tables == s)
            && (answer.Done? && !own ==> answer.value == AwaitingVerification)
            && (answer.Done? && own ==>
                  && answer.value.Shown?
                  && answer.value.coins == s.store.decisions[key].coins
                  && answer.value.reference == s.store.decisions[key].receipt
                  && (answer.value.reviewRequired <==>
                        exists e :: e in s.store.events && s.store.events[e].decision == key
                          && s.store.events[e].status == IsQuarantined))
  {
  }

  // Every credit ever made

  /** The credit is for the coins of its product in the registry, or of a pack of that product which was
      there when the line was written; and it is never below the registry's. */
  ghost predicate PricedBy(packs: seq<Pack>, ledger: seq<Entry>, d: Decision)
    requires d.Credited?
  {
    && d.product.coins <= d.coins && d.entry < |ledger|
    && (|| d.coins == d.product.coins
        || exists pack :: pack in packs && pack.product == d.product.product && pack.coins == d.coins
             && pack.createdAt <= ledger[d.entry].createdAt)
  }

  ghost predicate Priced(s: Tables) {
    forall k :: k in s.store.decisions && s.store.decisions[k].Credited? ==>
      PricedBy(s.packs, s.ledger, s.store.decisions[k])
  }

  lemma PricedByLater(
    packs: seq<Pack>, ledger: seq<Entry>, d: Decision, since: Instant, later: seq<Pack>, longer: seq<Entry>)
    requires d.Credited? && PricedBy(packs, ledger, d) && Evolved(packs, since, later) && ledger <= longer
    ensures PricedBy(later, longer, d)
  {
    if d.coins != d.product.coins {
      var pack :| pack in packs && pack.product == d.product.product && pack.coins == d.coins
                  && pack.createdAt <= ledger[d.entry].createdAt;
      var i :| 0 <= i < |packs| && packs[i] == pack;
      assert UpdateAllowed(packs[i], later[i]);
      assert later[i] in later;
    }
  }

  /** A delivery adds no credited decision but the one it pays. */
  lemma CreditsArePaid(s: Tables, e: Event, receipt: Uuid, k: TxKey)
    requires k in After(s, Fulfill(s, e, receipt)).store.decisions && k !in s.store.decisions
    requires After(s, Fulfill(s, e, receipt)).store.decisions[k].Credited?
    ensures Creditable(s, e, receipt)
  {
    FulfillMovesCoinsIff(s, e, receipt);
    SettleMovesCoinsIff(s, e, receipt, Gather(s, e, receipt));
  }

  lemma PaidIsPriced(s: Tables, e: Event, receipt: Uuid, k: TxKey)
    requires Inv(s) && k in After(s, Fulfill(s, e, receipt)).store.decisions && k !in s.store.decisions
    requires After(s, Fulfill(s, e, receipt)).store.decisions[k].Credited?
    ensures var after := After(s, Fulfill(s, e, receipt)); PricedBy(s.packs, after.ledger, after.store.decisions[k])
  {
    CreditsArePaid(s, e, receipt, k);
    var product := CreditableIsPayable(s, e, receipt);
    PaymentIsExact(s, e, receipt, product, Worth(s, e));
    CreditsOnlyItsKey(s, e, receipt, k);
    var key := Resolved(product.application, e.store, e.environment, e.transaction);
    assert k == key;
  }

  lemma CreditsOnlyItsKey(s: Tables, e: Event, receipt: Uuid, k: TxKey)
    requires Creditable(s, e, receipt) && k in Fulfill(s, e, receipt).tables.store.decisions && k !in s.store.decisions
    ensures k == ResolvedKey(TransactionOf(e), Application(s, e).value)
  {
  }

  lemma StepKeepsPrices(s: Tables, step: Step)
    requires Inv(s) && Priced(s)
    ensures Priced(Next(s, step))
  {
    var after := Next(s, step);
    StoreIsAppendOnly(s, step);
    StepEvolvesPacks(s, step);
    Guards.LedgerIsAppendOnly(s, step);
    forall k | k in after.store.decisions && after.store.decisions[k].Credited?
      ensures PricedBy(after.packs, after.ledger, after.store.decisions[k])
    {
      if k in s.store.decisions {
        PricedByLater(s.packs, s.ledger, s.store.decisions[k], s.clock, after.packs, after.ledger);
      } else {
        OnlyDeliveriesDecide(s, step, k);
        PaidIsPriced(s, step.event, step.receipt, k);
        OthersKeepPacks(s, step);
      }
    }
  }

  lemma OnlyDeliveriesDecide(s: Tables, step: Step, k: TxKey)
    requires k in Next(s, step).store.decisions && k !in s.store.decisions
    ensures step.Deliver?
  {
    if step.Identify? {
    } else if !step.Deliver? {
      OnlyStoreStepsTouchStore(s, step);
    }
  }

  /** In every state of every run from the empty database, each credited decision is for the coins of its
      product, or of a pack of that product created by then. */
  lemma {:induction false} EveryCreditIsPriced(s: Tables, steps: seq<Step>)
    requires Inv(s) && Priced(s)
    ensures Priced(Run(s, steps))
    decreases |steps|
  {
    if steps != [] {
      NextKeepsInv(s, steps[0]);
      StepKeepsPrices(s, steps[0]);
      EveryCreditIsPriced(Next(s, steps[0]), steps[1..]);
    }
  }

  lemma EveryCreditFromEmpty(s: Tables, steps: seq<Step>)
    requires Initial(s)
    ensures Priced(Run(s, steps))
  {
    InitialIsOk(s);
    EveryCreditIsPriced(s, steps);
  }
}
