/** Concrete runs that reach the cases the other modules say are possible. All start from the empty
    database. */
module Witnesses {
  import opened Wrappers
  import opened Registry
  import opened Packs
  import opened Policy
  import opened Tables
  import opened Purchases
  import opened Unlocks
  import opened Rewards
  import opened Accounts
  import opened Invariants
  import opened Protocol
  import opened Runs
  import opened Lifecycles
  import opened Notifications
  import opened Reads
  import opened Activity

  // Short runs

  lemma RunOfOne(s: Tables, a: Step)
    ensures Run(s, [a]) == Next(s, a)
  {
    assert Run(Next(s, a), [a][1..]) == Next(s, a);
  }

  lemma RunOfTwo(s: Tables, a: Step, b: Step)
    ensures Run(s, [a, b]) == Next(Next(s, a), b)
  {
    assert [a, b][1..] == [b];
    RunOfOne(Next(s, a), b);
  }

  lemma RunOfThree(s: Tables, a: Step, b: Step, c: Step)
    ensures Run(s, [a, b, c]) == Next(Next(Next(s, a), b), c)
  {
    assert [a, b, c][1..] == [b, c];
    RunOfTwo(Next(s, a), b, c);
  }

  lemma {:induction false} RunJoined(s: Tables, a: seq<Step>, b: seq<Step>)
    ensures Run(s, a + b) == Run(Run(s, a), b)
    decreases |a|
  {
    if a == [] {
      assert a + b == b;
    } else {
      assert (a + b)[1..] == a[1..] + b;
      RunJoined(Next(s, a[0]), a[1..], b);
    }
  }

  lemma CountOfThree(s: Tables, a: Step, b: Step, c: Step, deed: Deed)
    ensures Count(s, [a, b, c], deed) ==
              (if deed(s, a) then 1 else 0) + (if deed(Next(s, a), b) then 1 else 0)
              + (if deed(Next(Next(s, a), b), c) then 1 else 0)
  {
    assert [a, b, c][1..] == [b, c] && [b, c][1..] == [c];
    assert Count(Next(Next(s, a), b), [c], deed) == if deed(Next(Next(s, a), b), c) then 1 else 0;
  }

  // One account, one product, one episode for coins

  function Nothing(): Tables {
    Tables(
      0, Settings(None, false, false, AdsDisabled, ""), [], People(map[], 0, {}), Catalog(map[], {}),
      Wallets(map[], map[]), [], Spending(map[], map[], map[]), Store(map[], map[], map[], map[]), Ads(map[], map[]))
  }

  function Shop(): Product { Product("app", "application", "coins", 10, "PLAY_STORE", "SANDBOX") }

  function OtherShop(): Product { Shop().(app := "other", application := "elsewhere") }

  function ForCoins(): Episode { Episode(0, 1, Coin, Some(4), 0, false, true) }

  function Selling(product: Product): Settings { Settings(Some([product]), true, true, AdsDisabled, "") }

  function Opened(product: Product): Tables {
    Nothing().(settings := Selling(product), people := People(map[0 := Profile("uid", false)], 1, {}),
               catalog := Catalog(map[3 := ForCoins()], {}))
  }

  /** The account has asked for its purchase identity, and so has a wallet. */
  function Issued(product: Product): Tables {
    Opened(product).(
      wallets := Wallets(map[5 := Some(0)], map[0 := 5]), store := Store(map[7 := 5], map[], map[], map[]))
  }

  function Account(): ProfileRef { ProfileRef(0, "uid") }

  function Delivery(): Event {
    Event("id", "app", "PLAY_STORE", "SANDBOX", "transaction", "coins",
          Canonical(7), NonRenewingPurchase, true, true, 0, 0)
  }

  function Key(): TxKey { Resolved("application", "PLAY_STORE", "SANDBOX", "transaction") }

  function Listing(product: Product): Step { Configure([Row(product, true)], true, true, AdsDisabled, "") }

  function Issue(): Step { Identify(Account(), 5, 7) }

  function Opening(product: Product): seq<Step> { [Listing(product), SignIn("uid"), EditEpisode(3, ForCoins())] }

  lemma ListingConfigures(s: Tables, product: Product)
    requires Acceptable(Row(product, true))
    ensures Next(s, Listing(product)) == s.(settings := Selling(product))
  {
    assert Products([Row(product, true)]) == [product];
  }

  lemma SignInAppears(s: Tables, uid: Uid, n: ProfileId)
    requires uid != "" && |uid| <= UID_MAX_LENGTH && uid !in s.people.deletions && n == s.people.nextProfile
    requires forall p :: p in s.people.profiles ==> s.people.profiles[p].uid != uid
    ensures Next(s, SignIn(uid)) == s.(people := s.people.(
              profiles := s.people.profiles[n := Profile(uid, false)], nextProfile := n + 1))
  {
  }

  lemma EpisodeAppears(s: Tables, episode: Episode)
    requires s.catalog == Catalog(map[], {}) && PriceValid(episode)
    ensures Next(s, EditEpisode(3, episode)) == s.(catalog := Catalog(map[3 := episode], {}))
  {
    assert s.catalog.episodes[3 := episode] == map[3 := episode];
  }

  lemma OpeningLeadsThere(product: Product)
    requires Acceptable(Row(product, true))
    ensures Initial(Nothing()) && Run(Nothing(), Opening(product)) == Opened(product)
  {
    var listed := Nothing().(settings := Selling(product));
    ListingConfigures(Nothing(), product);
    SignInAppears(listed, "uid", 0);
    var none: map<ProfileId, Profile> := map[];
    assert none[0 := Profile("uid", false)] == map[0 := Profile("uid", false)];
    EpisodeAppears(Next(listed, SignIn("uid")), ForCoins());
    RunOfThree(Nothing(), Listing(product), SignIn("uid"), EditEpisode(3, ForCoins()));
  }

  lemma IssueLeadsThere(product: Product)
    ensures Next(Opened(product), Issue()) == Issued(product)
  {
    var s := Opened(product);
    assert WithWallet(s, 0, 5).wallets == Issued(product).wallets;
    assert PurchaseIdentity(s, Account(), 5, 7) == Done(5, Issued(product));
  }

  function Start(product: Product): seq<Step> { Opening(product) + [Issue()] }

  lemma StartLeadsThere(product: Product)
    requires Acceptable(Row(product, true))
    ensures Initial(Nothing()) && Run(Nothing(), Start(product)) == Issued(product)
  {
    OpeningLeadsThere(product);
    RunJoined(Nothing(), Opening(product), [Issue()]);
    RunOfOne(Opened(product), Issue());
    IssueLeadsThere(product);
  }

  lemma OneProductRegistry(product: Product)
    ensures Listed([product], product.app, product.product) == Some(product)
    ensures Scope([product], product.app) == Some(product)
    ensures forall app :: app != product.app ==> Scope([product], app).None?
    ensures CreditedCoins([], product, 0, 0) == product.coins
  {
  }

  lemma CreditableWhenIssued(receipt: Uuid)
    ensures Creditable(Issued(Shop()), Delivery(), receipt)
  {
    OneProductRegistry(Shop());
    assert Balance([], 5) == 0;
  }

  // An unconfirmed webhook that is credited

  /** A delivery that names an identity not issued yet is passed on without a lookup; if the identity is
      issued before the fulfilment, the delivery is credited although no provider record was seen. */
  lemma IdentityIssuedInBetween(receipt: Uuid)
    ensures Initial(Nothing())
    ensures var s := Run(Nothing(), Opening(Shop()));
            && Routed(s, Delivery(), None) == PassedOn(Delivery(), false)
            && Creditable(Run(s, [Issue()]), Delivery(), receipt)
  {
    OpeningLeadsThere(Shop());
    RunOfOne(Opened(Shop()), Issue());
    IssueLeadsThere(Shop());
    CreditableWhenIssued(receipt);
  }

  lemma OtherIsNotListed()
    ensures Routed(Issued(OtherShop()), Delivery(), None) == PassedOn(Delivery(), false)
  {
    assert Listed([OtherShop()], "app", "coins").None?;
  }

  /** The same when its product is listed in between. */
  lemma ProductListedInBetween(receipt: Uuid)
    ensures Initial(Nothing())
    ensures var s := Run(Nothing(), Start(OtherShop()));
            && Routed(s, Delivery(), None) == PassedOn(Delivery(), false)
            && Creditable(Run(s, [Listing(Shop())]), Delivery(), receipt)
  {
    StartLeadsThere(OtherShop());
    OtherIsNotListed();
    RunOfOne(Issued(OtherShop()), Listing(Shop()));
    ListingConfigures(Issued(OtherShop()), Shop());
    CreditableWhenIssued(receipt);
  }

  // Two decisions, and a refund that does not reach its purchase

  function Paid(): Decision { Credited(Claim(Key(), "coins", Canonical(7), 0), 1, 7, 0, 10, Shop()) }

  function AfterCredit(): Tables {
    var s := Issued(Shop());
    s.(ledger := [Entry(5, 1, Purchase, 10, 0)],
       store := Store(map[7 := 5], map["app" := "application"], map[Key() := Paid()],
                      map[Delivery() := EventRow(Key(), IsCredited, VerifiedPurchase)]))
  }

  lemma CreditGathers()
    ensures var s := Issued(Shop());
            Gather(s, Delivery(), 1) == Facts(Some("application"), false, None, Some(Credit(5, 7, 10, Shop(), true)))
  {
    CreditableWhenIssued(1);
    OneProductRegistry(Shop());
  }

  lemma CreditLeadsThere()
    ensures Next(Issued(Shop()), Deliver(Delivery(), 1)) == AfterCredit()
  {
    var s, e := Issued(Shop()), Delivery();
    CreditGathers();
    var f := Gather(s, e, 1);
    assert [] + [Entry(5, 1, Purchase, 10, 0)] == [Entry(5, 1, Purchase, 10, 0)];
    assert Settle(s, e, 1, f) == Some(Settlement(Key(), Paid(), [Entry(5, 1, Purchase, 10, 0)]));
  }

  function Refunded(): Event { Delivery().(id := "refund", kind := Cancellation) }

  function Moved(): Tables { AfterCredit().(settings := Selling(OtherShop())) }

  function AfterRefund(): Tables {
    var raw := RawKey(Refunded());
    var refused := Quarantined(ClaimOf(Refunded(), raw), UnsupportedScope);
    Moved().(store := Moved().store.(
      decisions := Moved().store.decisions[raw := refused],
      events := Moved().store.events[Refunded() := EventRow(raw, IsQuarantined, UnsupportedScope)]))
  }

  lemma RefundLeadsThere()
    ensures Next(Moved(), Deliver(Refunded(), 2)) == AfterRefund()
  {
    var s, e := Moved(), Refunded();
    OneProductRegistry(OtherShop());
    var f := Gather(s, e, 2);
    assert f == Facts(None, false, Some(UnsupportedScope), None);
    var refused := Quarantined(ClaimOf(e, RawKey(e)), UnsupportedScope);
    assert Settle(s, e, 2, f) == Some(Settlement(RawKey(e), refused, s.ledger));
  }

  function ThreeSteps(): seq<Step> { [Deliver(Delivery(), 1), Listing(OtherShop()), Deliver(Refunded(), 2)] }

  lemma ThreeStepsLeadThere()
    ensures Run(Issued(Shop()), ThreeSteps()) == AfterRefund()
  {
    var s := Issued(Shop());
    CreditLeadsThere();
    ListingConfigures(AfterCredit(), OtherShop());
    RefundLeadsThere();
    RunOfThree(s, Deliver(Delivery(), 1), Listing(OtherShop()), Deliver(Refunded(), 2));
  }

  /** A purchase, a registry that moves on, and a late refund: the transaction ends with two decisions,
      one of them a credit. */
  lemma TwoDecisionsReached()
    ensures Initial(Nothing())
    ensures var decisions := Run(Run(Nothing(), Start(Shop())), ThreeSteps()).store.decisions;
            && Key() in decisions && decisions[Key()].Credited?
            && RawKey(Delivery()) in decisions && decisions[RawKey(Delivery())].Quarantined?
  {
    StartLeadsThere(Shop());
    ThreeStepsLeadThere();
    assert Key() in AfterRefund().store.decisions;
  }

  /** In the same run the buyer is still told the purchase is credited and not under review. */
  lemma RefundIsMissed()
    ensures var later := Run(Run(Nothing(), Start(Shop())), ThreeSteps());
            && Refunded() in later.store.events && later.store.events[Refunded()].status == IsQuarantined
            && PurchaseStatusOf(later, Account(), "application", "coins", "transaction")
               == Done(Shown(false, 10, 1), later)
  {
    StartLeadsThere(Shop());
    ThreeStepsLeadThere();
    assert !NeedsReview(AfterRefund().store.events, Key());
  }

  // A credit and a debit of one instant

  function Wanted(): Terms { Terms(3, ResolvePolicy(3, ForCoins(), AdsDisabled).version, 4) }

  function Unlocking(): Request { Request(Account(), 0, Wanted(), 5, 2, true) }

  lemma TenCoins()
    ensures Balance(AfterCredit().ledger, 5) == 10 && Unused(AfterCredit().ledger, 2)
  {
    var line := Entry(5, 1, Purchase, 10, 0);
    BalanceAppended([], line, 5);
    assert [] + [line] == [line];
  }

  lemma UnlockIsPostable()
    ensures Postable(AfterCredit(), 5, 2, Unlock, -4)
  {
    TenCoins();
  }

  lemma UnlockIsChargeable()
    ensures Chargeable(AfterCredit(), Unlocking())
  {
    var s, r := AfterCredit(), Unlocking();
    TenCoins();
    UnlockIsPostable();
    assert WithWallet(s, 0, 5) == s && WalletFor(s, 0, 5) == 5;
    assert 0 - r.terms.price == -4;
    assert Completion(s, 0, 0).None? && !IsCancelled(s, 0, 0) && Held(s, 0, 3).None?;
  }

  lemma DebitIsThere()
    ensures Next(AfterCredit(), Spend(Unlocking())).ledger
         == [Entry(5, 1, Purchase, 10, 0)] + [Entry(5, 2, Unlock, -4, 0)]
  {
    UnlockIsChargeable();
    UnlockMovesCoinsIff(AfterCredit(), Unlocking());
  }

  lemma SpendLeadsThere()
    ensures Run(Issued(Shop()), [Deliver(Delivery(), 1), Spend(Unlocking())]).ledger
         == [Entry(5, 1, Purchase, 10, 0)] + [Entry(5, 2, Unlock, -4, 0)]
  {
    CreditLeadsThere();
    RunOfTwo(Issued(Shop()), Deliver(Delivery(), 1), Spend(Unlocking()));
    DebitIsThere();
  }

  lemma DebitFirst(credit: Entry, debit: Entry)
    requires credit.wallet == 5 && debit.wallet == 5 && credit.createdAt == debit.createdAt && debit.amount < 0
    ensures Answers([debit, credit], [credit] + [debit], 5) && !InRange(debit, Sum([debit, credit][..1]))
  {
    TwoLines(credit, debit, 5);
    assert multiset([debit, credit]) == multiset([credit, debit]);
    assert [debit, credit][..1] == [] + [debit];
    SumAppended([], debit);
  }

  /** A purchase and an unlock at one clock reading: the query may list the spending first, and then the
      page raises although the wallet never was overdrawn. */
  lemma TiedLinesMayRaise()
    ensures Initial(Nothing())
    ensures var s := Run(Nothing(), Start(Shop()));
            var ledger := Run(s, [Deliver(Delivery(), 1), Spend(Unlocking())]).ledger;
            var rows := [Entry(5, 2, Unlock, -4, 0), Entry(5, 1, Purchase, 10, 0)];
            Answers(rows, ledger, 5) && !InRange(rows[0], Sum(rows[..1]))
  {
    StartLeadsThere(Shop());
    SpendLeadsThere();
    DebitFirst(Entry(5, 1, Purchase, 10, 0), Entry(5, 2, Unlock, -4, 0));
  }

  // One provider transaction, two grants

  function ForAdverts(): Episode { Episode(0, 1, RewardedAd, None, 0, true, true) }

  function Asked(p: ProfileId): Intent {
    Intent(p, 3, 0, 0, "", Some(ResolvePolicy(3, ForAdverts(), AdsTest).version), 0, INTENT_LIFETIME, None)
  }

  function Advertising(): Settings { Settings(None, true, false, AdsTest, "") }

  /** Two accounts and an episode for adverts. */
  function Gathered(first: bool, second: bool): Tables {
    Nothing().(
      settings := Advertising(), catalog := Catalog(map[3 := ForAdverts()], {}),
      people := People(map[0 := Profile("first", first), 1 := Profile("second", second)], 2, {}))
  }

  function BothAsked(): Tables {
    Gathered(true, true).(ads := Ads(map[10 := Asked(0), 11 := Asked(1)], map[(0, 0) := 10, (1, 0) := 11]))
  }

  function Gathering(): seq<Step> {
    [Configure([], true, false, AdsTest, ""), EditEpisode(3, ForAdverts()), SignIn("first")]
  }

  function Consenting(): seq<Step> { [SignIn("second"), Consent(0, true), Consent(1, true)] }

  function Ask(p: ProfileId, uid: Uid, custom: Uuid): Step { AskReward(ProfileRef(p, uid), 3, 0, None, custom, 0) }

  function Asking(): seq<Step> { Gathering() + Consenting() + [Ask(0, "first", 10), Ask(1, "second", 11)] }

  function OneSignedIn(): Tables {
    Gathered(false, false).(people := People(map[0 := Profile("first", false)], 1, {}))
  }

  lemma GatheringLeadsThere()
    ensures Initial(Nothing()) && Run(Nothing(), Gathering()) == OneSignedIn()
  {
    var configured := Nothing().(settings := Advertising());
    assert Next(Nothing(), Configure([], true, false, AdsTest, "")) == configured;
    EpisodeAppears(configured, ForAdverts());
    var listed := configured.(catalog := Catalog(map[3 := ForAdverts()], {}));
    SignInAppears(listed, "first", 0);
    var none: map<ProfileId, Profile> := map[];
    assert none[0 := Profile("first", false)] == map[0 := Profile("first", false)];
    RunOfThree(Nothing(), Configure([], true, false, AdsTest, ""), EditEpisode(3, ForAdverts()), SignIn("first"));
  }

  lemma ConsentLeadsThere()
    ensures Next(Gathered(false, false), Consent(0, true)) == Gathered(true, false)
    ensures Next(Gathered(true, false), Consent(1, true)) == Gathered(true, true)
  {
    assert Gathered(false, false).people.profiles[0 := Profile("first", true)] == Gathered(true, false).people.profiles;
    assert Gathered(true, false).people.profiles[1 := Profile("second", true)] == Gathered(true, true).people.profiles;
  }

  lemma ConsentingLeadsThere()
    ensures Run(OneSignedIn(), Consenting()) == Gathered(true, true)
  {
    SignInAppears(OneSignedIn(), "second", 1);
    assert OneSignedIn().people.profiles[1 := Profile("second", false)] == Gathered(false, false).people.profiles;
    ConsentLeadsThere();
    RunOfThree(OneSignedIn(), SignIn("second"), Consent(0, true), Consent(1, true));
  }

  lemma AskAppears(s: Tables, p: ProfileId, uid: Uid, custom: Uuid)
    requires Current(s, ProfileRef(p, uid)) && (p, 0) !in s.ads.requests && custom !in s.ads.intents
    requires s.catalog == Catalog(map[3 := ForAdverts()], {}) && s.clock == 0 && s.settings == Advertising()
    requires OfferAvailable(s, 3, p)
    ensures Next(s, Ask(p, uid, custom)) ==
            s.(ads := Ads(s.ads.intents[custom := Asked(p)], s.ads.requests[(p, 0) := custom]))
  {
  }

  function FirstAsked(): Tables {
    Gathered(true, true).(ads := Ads(map[10 := Asked(0)], map[(0, 0) := 10]))
  }

  lemma BothAskLeadsThere()
    ensures Run(Gathered(true, true), [Ask(0, "first", 10), Ask(1, "second", 11)]) == BothAsked()
  {
    AskAppears(Gathered(true, true), 0, "first", 10);
    assert Gathered(true, true).ads.intents[10 := Asked(0)] == FirstAsked().ads.intents;
    assert Gathered(true, true).ads.requests[(0, 0) := 10] == FirstAsked().ads.requests;
    AskAppears(FirstAsked(), 1, "second", 11);
    assert FirstAsked().ads.intents[11 := Asked(1)] == BothAsked().ads.intents;
    assert FirstAsked().ads.requests[(1, 0) := 11] == BothAsked().ads.requests;
    RunOfTwo(Gathered(true, true), Ask(0, "first", 10), Ask(1, "second", 11));
  }

  lemma AskingLeadsThere()
    ensures Initial(Nothing()) && Run(Nothing(), Asking()) == BothAsked()
  {
    GatheringLeadsThere();
    ConsentingLeadsThere();
    BothAskLeadsThere();
    RunJoined(Nothing(), Gathering(), Consenting());
    RunJoined(Nothing(), Gathering() + Consenting(), [Ask(0, "first", 10), Ask(1, "second", 11)]);
  }

  function Watched(custom: Uuid): Callback { Callback("watched", custom, 0, "", 0) }

  function FirstGranted(): Tables {
    BothAsked().(
      spending := Spending(map[], map[], map[(0, 3) := Source.Reward]),
      ads := Ads(map[10 := Asked(0).(granted := Some(Granted(0, "watched", 0))), 11 := Asked(1)],
                 map[(0, 0) := 10, (1, 0) := 11]))
  }

  function FirstGone(): Tables {
    BothAsked().(
      people := People(map[1 := Profile("second", true)], 2, {"first"}),
      ads := Ads(map[11 := Asked(1)], map[(1, 0) := 11]))
  }

  lemma FirstIsGrantable()
    ensures Judge(BothAsked(), Watched(10)).GrantNow?
  {
    assert !TransactionUsed(BothAsked(), "watched");
  }

  lemma FirstGrant()
    ensures Next(BothAsked(), Step.Reward(Watched(10))) == FirstGranted()
  {
    var s := BothAsked();
    FirstIsGrantable();
    assert s.ads.intents[10 := Asked(0).(granted := Some(Granted(0, "watched", 0)))] == FirstGranted().ads.intents;
  }

  lemma FirstsRowsGo()
    ensures var after := WithoutProfiles(FirstGranted(), {0});
            && after.ads == FirstGone().ads && after.spending == FirstGone().spending
            && after.wallets == FirstGone().wallets
  {
    var after := WithoutProfiles(FirstGranted(), {0});
    assert after.ads.intents == FirstGone().ads.intents;
    assert after.ads.requests == FirstGone().ads.requests;
  }

  lemma FirstLeaves()
    ensures Next(FirstGranted(), DeleteAccount("first", Some(0))) == FirstGone()
  {
    var s := FirstGranted();
    var doomed := set p | p in s.people.profiles && s.people.profiles[p].uid == "first";
    assert doomed == {0};
    FirstsRowsGo();
    assert s.people.profiles - doomed == FirstGone().people.profiles;
    assert RequestDeletion(s, "first", Some(0)) == Done("first", FirstGone());
  }

  lemma SecondGrant()
    ensures Judge(FirstGone(), Watched(11)).GrantNow?
  {
    var s := FirstGone();
    assert !TransactionUsed(s, "watched");
  }

  function GrantLeaveGrant(): seq<Step> {
    [Step.Reward(Watched(10)), DeleteAccount("first", Some(0)), Step.Reward(Watched(11))]
  }

  lemma ThreeDeeds()
    ensures Granting("watched")(BothAsked(), Step.Reward(Watched(10)))
    ensures var s := Next(BothAsked(), Step.Reward(Watched(10)));
            && !Granting("watched")(s, DeleteAccount("first", Some(0)))
            && Granting("watched")(Next(s, DeleteAccount("first", Some(0))), Step.Reward(Watched(11)))
  {
    FirstIsGrantable();
    FirstGrant();
    FirstLeaves();
    SecondGrant();
  }

  /** One provider transaction grants an intent, its account is deleted, and it grants another. */
  lemma TransactionGrantsTwice()
    ensures Initial(Nothing())
    ensures Count(Run(Nothing(), Asking()), GrantLeaveGrant(), Granting("watched")) == 2
  {
    AskingLeadsThere();
    ThreeDeeds();
    CountOfThree(BothAsked(), Step.Reward(Watched(10)), DeleteAccount("first", Some(0)), Step.Reward(Watched(11)),
                 Granting("watched"));
  }
}
