/** The accounting protocol as one state machine: each transaction, clock tick, configuration change and
    staff or editorial edit is one step. Every step keeps every invariant, so all runs do. */
module Protocol {
  import opened Wrappers
  import opened Registry
  import opened Packs
  import opened Policy
  import opened Tables
  import opened Purchases
  import opened Unlocks
  import opened Rewards
  import opened Accounts
  import opened Invariants

  datatype Step =
    | Tick(elapsed: nat)
    | Configure(rows: seq<Row>, purchasesEnabled: bool, spendingEnabled: bool, adsMode: AdsMode, adUnit: string)
    | CreatePack(product: ProductId, base: nat, bonus: nat, sortOrder: nat, display: Display,
                 startsAt: Option<Instant>, endsAt: Option<Instant>, active: bool)
    | ChangePack(id: nat, edited: Pack)
    | EditEpisode(episodeId: EpisodeId, episode: Episode)
    | RemoveEpisode(episodeId: EpisodeId)
    | SignIn(uid: Uid)
    | Consent(profile: ProfileId, consent: bool)
    | DeleteAccount(uid: Uid, authenticatedAt: Option<Instant>)
    | Identify(who: ProfileRef, wallet: WalletId, identity: Uuid)
    | Deliver(event: Event, receipt: Uuid)
    | Spend(request: Request)
    | Resolve(request: Request)
    | AskReward(
        who: ProfileRef, episodeId: EpisodeId, requestId: RequestId, expected: Option<Version>,
        custom: Uuid, user: Uuid)
    | Reward(callback: Callback)
    | StaffGrant(profile: ProfileId, episodeId: EpisodeId, source: Source, change: bool)
    | StaffRevoke(selected: set<(ProfileId, EpisodeId)>)
    | Correct(wallet: WalletId, reference: Uuid, amount: int)

  ghost function Configured(s: Tables, step: Step): Tables
    requires step.Configure?
  {
    s.(settings := Settings(
      if ValidRegistry(step.rows) then Some(Products(step.rows)) else None,
      step.purchasesEnabled, step.spendingEnabled, step.adsMode, step.adUnit))
  }

  /** A direct correction by an operator passes the same row guards as any other line. */
  function Corrected(s: Tables, w: WalletId, reference: Uuid, amount: int): Tables {
    if Postable(s, w, reference, Correction, amount) then Posted(s, w, reference, Correction, amount) else s
  }

  ghost function Next(s: Tables, step: Step): Tables {
    match step
    case Tick(elapsed) => s.(clock := s.clock + elapsed)
    case Configure(_, _, _, _, _) => Configured(s, step)
    case CreatePack(product, base, bonus, sortOrder, display, startsAt, endsAt, active) =>
      var added := AddPack(s.packs, product, base, bonus, sortOrder, display, startsAt, endsAt, active, s.clock);
      s.(packs := added.GetOr(s.packs))
    case ChangePack(id, edited) => s.(packs := EditPack(s.packs, id, edited, s.clock).GetOr(s.packs))
    case EditEpisode(id, episode) => After(s, SaveEpisode(s, id, episode))
    case RemoveEpisode(id) => DeleteEpisode(s, id)
    case SignIn(uid) => After(s, GetOrCreateProfile(s, uid))
    case Consent(p, consent) => SetAdsConsent(s, p, consent)
    case DeleteAccount(uid, authenticatedAt) => After(s, RequestDeletion(s, uid, authenticatedAt))
    case Identify(who, wallet, identity) => After(s, PurchaseIdentity(s, who, wallet, identity))
    case Deliver(e, receipt) => After(s, Fulfill(s, e, receipt))
    case Spend(r) => After(s, UnlockEpisode(s, r))
    case Resolve(r) => After(s, ResolveUnlock(s, r))
    case AskReward(who, episode, request, expected, custom, user) =>
      After(s, CreateIntent(s, who, episode, request, expected, custom, user))
    case Reward(callback) => After(s, GrantReward(s, callback))
    case StaffGrant(p, episode, source, change) => After(s, StaffSave(s, p, episode, source, change))
    case StaffRevoke(selected) => After(s, StaffDelete(s, selected))
    case Correct(w, reference, amount) => Corrected(s, w, reference, amount)
  }

  ghost function Run(s: Tables, steps: seq<Step>): Tables
    decreases |steps|
  {
    if steps == [] then s else Run(Next(s, steps[0]), steps[1..])
  }

  /** The empty database under any configuration. */
  ghost predicate Initial(s: Tables) {
    && SettingsOk(s.settings)
    && s.packs == []
    && s.people == People(map[], 0, {})
    && s.catalog == Catalog(map[], {})
    && s.wallets == Wallets(map[], map[])
    && s.ledger == []
    && s.spending == Spending(map[], map[], map[])
    && s.store == Store(map[], map[], map[], map[])
    && s.ads == Ads(map[], map[])
  }

  lemma InitialIsOk(s: Tables)
    requires Initial(s)
    ensures Inv(s)
  {
    forall n: nat, w | n <= |s.ledger| ensures SolventAt(s.ledger, n, w) {
    }
  }

  // Deliveries

  /** What holds of the facts gathered in a reachable state. */
  ghost predicate FactsOk(s: Tables, e: Event, receipt: Uuid, f: Facts) {
    && (f.application.Some? ==>
          if e.app in s.store.bindings then s.store.bindings[e.app] == f.application.value
          else forall a :: a in s.store.bindings ==> s.store.bindings[a] != f.application.value)
    && (f.refusal.None? ==>
          && f.application.Some? && f.credit.Some?
          && var c := f.credit.value;
          && c.identity in s.store.identities && c.wallet == s.store.identities[c.identity]
          && (c.postable ==> Postable(s, c.wallet, receipt, Purchase, c.coins))
          && c.product.app == e.app && c.product.application == f.application.value)
  }

  lemma GatheredIsOk(s: Tables, e: Event, receipt: Uuid)
    requires SettingsOk(s.settings) && s.settings.registry.Some?
    ensures FactsOk(s, e, receipt, Gather(s, e, receipt))
  {
    var f := Gather(s, e, receipt);
    var products := s.settings.registry.value;
    if f.refusal.None? {
      ScopeIsUnique(products, f.credit.value.product);
    }
    if f.application.Some? && e.app !in s.store.bindings {
      forall a | a in s.store.bindings ensures s.store.bindings[a] != f.application.value {
        assert s.store.bindings[a] in s.store.bindings.Values;
      }
    }
  }

  lemma SettlementKeepsBooks(s: Tables, e: Event, receipt: Uuid, f: Facts, x: Settlement)
    requires FactsOk(s, e, receipt, f) && Settle(s, e, receipt, f) == Some(x)
    requires LinesOk(s.ledger, s.wallets) && Solvent(s.ledger) && DebitsOk(s.ledger, s.spending)
    ensures LinesOk(x.ledger, s.wallets) && Solvent(x.ledger) && DebitsOk(x.ledger, s.spending)
  {
    if x.ledger != s.ledger {
      var line := Entry(f.credit.value.wallet, receipt, Purchase, f.credit.value.coins, s.clock);
      LineAppended(s.ledger, s.wallets, line);
      OtherLineAppended(s.ledger, s.store, s.spending, line);
    }
  }

  lemma SettlementKeepsCredits(s: Tables, e: Event, receipt: Uuid, f: Facts, x: Settlement)
    requires FactsOk(s, e, receipt, f) && Settle(s, e, receipt, f) == Some(x)
    requires CreditsOk(s.ledger, s.store)
    ensures CreditsOk(x.ledger, Recorded(s, e, f, x).store)
  {
    var after := Recorded(s, e, f, x).store;
    if x.ledger != s.ledger {
      var line := Entry(f.credit.value.wallet, receipt, Purchase, f.credit.value.coins, s.clock);
      assert x.ledger == s.ledger + [line];
      CreditAppended(s.ledger, s.store, after, x.used, line);
    } else {
      assert x.used !in s.store.decisions ==> x.decision.Quarantined? by {
        if f.refusal.None? && f.credit.value.postable {
          SettleMovesCoinsIff(s, e, receipt, f);
        }
      }
      QuarantineAdded(s.ledger, s.store, after);
    }
  }

  lemma SettlementKeepsKeys(s: Tables, e: Event, receipt: Uuid, f: Facts, x: Settlement)
    requires FactsOk(s, e, receipt, f) && Settle(s, e, receipt, f) == Some(x)
    requires CreditKeysOk(s.store) && Injective(s.store.bindings)
    ensures CreditKeysOk(Recorded(s, e, f, x).store) && Injective(Recorded(s, e, f, x).store.bindings)
  {
    var after := Recorded(s, e, f, x).store;
    forall k | k in after.decisions && after.decisions[k].Credited?
      ensures k.Resolved?
      ensures after.decisions[k].product.app in after.bindings
      ensures after.bindings[after.decisions[k].product.app] == k.application
      ensures after.decisions[k].product.application == k.application
    {
      if k in s.store.decisions {
        assert after.decisions[k] == s.store.decisions[k];
      }
    }
  }

  lemma SettlementKeepsEvents(s: Tables, e: Event, receipt: Uuid, f: Facts, x: Settlement)
    requires FactsOk(s, e, receipt, f) && Settle(s, e, receipt, f) == Some(x)
    requires EventsOk(s.store)
    ensures EventsOk(Recorded(s, e, f, x).store)
  {
    var after := Recorded(s, e, f, x).store;
    forall d | d in after.events
      ensures Settled(after, TransactionOf(d)) && after.events[d].decision in after.decisions
    {
      if d == e {
        assert x.used == RawKey(e) || x.used == KeyFor(e, f.application);
      } else {
        assert Settled(s.store, TransactionOf(d)) && s.store.events[d].decision in s.store.decisions;
      }
    }
  }

  lemma DeliverKeepsInv(s: Tables, e: Event, receipt: Uuid)
    requires Inv(s)
    ensures Inv(After(s, Fulfill(s, e, receipt)))
  {
    if s.settings.purchasesEnabled && e !in s.store.events && s.settings.registry.Some? {
      var f := Gather(s, e, receipt);
      GatheredIsOk(s, e, receipt);
      var settled := Settle(s, e, receipt, f);
      if settled.Some? {
        var x := settled.value;
        SettlementKeepsBooks(s, e, receipt, f, x);
        SettlementKeepsCredits(s, e, receipt, f, x);
        SettlementKeepsKeys(s, e, receipt, f, x);
        SettlementKeepsEvents(s, e, receipt, f, x);
        assert Inv(Recorded(s, e, f, x));
        assert Fulfill(s, e, receipt).tables == Recorded(s, e, f, x);
      } else {
        assert Fulfill(s, e, receipt).Raised?;
      }
    }
  }

  // Spending

  /** The wallet of an account, existing or issued now, and what issuing it keeps. */
  lemma WalletIssued(s: Tables, p: ProfileId, issued: WalletId)
    requires Inv(s) && p in s.people.profiles && WalletReady(s, p, issued)
    ensures var after := WithWallet(s, p, issued);
            var w := WalletFor(s, p, issued);
            && WalletsOk(after.wallets, s.people)
            && LinesOk(s.ledger, after.wallets) && IdentitiesOk(s.store, after.wallets)
            && TerminalsOk(s.spending, after.wallets) && ChargesOk(s.spending, after.wallets, s.catalog)
            && p in after.wallets.walletOf && after.wallets.walletOf[p] == w && Attached(after, w)
            && Injective(after.wallets.walletOf)
            && (p !in s.wallets.walletOf ==>
                forall k: RequestKey | k.0 == w :: k !in s.spending.unlocks && k !in s.spending.cancellations)
  {
    if p !in s.wallets.walletOf {
      var after := WithWallet(s, p, issued).wallets;
      forall k, q, episode | q in after.walletOf && ChargedFor(s.spending.unlocks, k, after.walletOf[q], episode)
          && episode in s.catalog.episodes
        ensures (q, episode) in s.spending.entitlements && s.spending.entitlements[(q, episode)].Coins?
      {
        assert q != p;
      }
    }
  }

  /** A request that goes on to be completed has no outcome under its wallet yet. */
  lemma KeyIsNew(s: Tables, r: Request)
    requires Inv(s) && Refused(s, r).None? && Completion(s, r.who.id, r.id).None?
    ensures var key := (WalletFor(s, r.who.id, r.wallet), r.id);
            key !in s.spending.unlocks && key !in s.spending.cancellations
  {
    WalletIssued(s, r.who.id, r.wallet);
  }

  lemma CompletingKeepsDebits(s: Tables, r: Request, debit: bool)
    requires DebitsOk(s.ledger, s.spending) && (WalletFor(s, r.who.id, r.wallet), r.id) !in s.spending.unlocks
    requires debit ==> r.terms.price > 0
    ensures DebitsOk(Completing(s, r, debit).ledger, Completing(s, r, debit).spending)
  {
    var w := WalletFor(s, r.who.id, r.wallet);
    var line := Entry(w, r.reference, Unlock, 0 - r.terms.price, s.clock);
    var after := Completing(s, r, debit).spending;
    if debit {
      DebitAppended(s.ledger, s.spending, after, (w, r.id), line);
    } else {
      FreeReceiptAdded(s.ledger, s.spending, after, (w, r.id));
    }
  }

  lemma CompletingKeepsBooks(s: Tables, r: Request, debit: bool)
    requires Inv(s) && Refused(s, r).None?
    requires debit ==> Chargeable(s, r)
    ensures var after := Completing(s, r, debit);
            LinesOk(after.ledger, after.wallets) && Solvent(after.ledger) && CreditsOk(after.ledger, s.store)
  {
    WalletIssued(s, r.who.id, r.wallet);
    if debit {
      var line := Entry(WalletFor(s, r.who.id, r.wallet), r.reference, Unlock, 0 - r.terms.price, s.clock);
      LineAppended(s.ledger, WithWallet(s, r.who.id, r.wallet).wallets, line);
      OtherLineAppended(s.ledger, s.store, s.spending, line);
    }
  }

  /** A second charge for an episode is impossible: the first one's coin grant would still be there. */
  lemma CompletingKeepsCharges(s: Tables, r: Request, debit: bool)
    requires var wallets := WithWallet(s, r.who.id, r.wallet).wallets;
             && ChargesOk(s.spending, wallets, s.catalog) && Injective(wallets.walletOf)
             && r.who.id in wallets.walletOf && wallets.walletOf[r.who.id] == WalletFor(s, r.who.id, r.wallet)
    requires (WalletFor(s, r.who.id, r.wallet), r.id) !in s.spending.unlocks
    requires debit ==>
               Held(s, r.who.id, r.terms.episode).None? && r.terms.episode in s.catalog.episodes && r.terms.price > 0
    ensures var after := Completing(s, r, debit); ChargesOk(after.spending, after.wallets, s.catalog)
  {
    var w := WalletFor(s, r.who.id, r.wallet);
    var key := (w, r.id);
    var wallets := WithWallet(s, r.who.id, r.wallet).wallets;
    var after := Completing(s, r, debit).spending;
    forall k: RequestKey, v, episode
      ensures ChargedFor(after.unlocks, k, v, episode) <==>
        ChargedFor(s.spending.unlocks, k, v, episode) || (debit && k == key && v == w && episode == r.terms.episode)
    {
    }
    if debit {
      assert forall k :: !ChargedFor(s.spending.unlocks, k, w, r.terms.episode);
    }
    forall k, p, episode
      | p in wallets.walletOf && ChargedFor(after.unlocks, k, wallets.walletOf[p], episode)
        && episode in s.catalog.episodes
      ensures (p, episode) in after.entitlements && after.entitlements[(p, episode)].Coins?
    {
      if !ChargedFor(s.spending.unlocks, k, wallets.walletOf[p], episode) {
        assert p == r.who.id;
      }
    }
  }

  lemma CompletingKeepsTerminals(s: Tables, r: Request, debit: bool)
    requires Inv(s) && Refused(s, r).None?
    ensures var after := Completing(s, r, debit); TerminalsOk(after.spending, after.wallets)
  {
    WalletIssued(s, r.who.id, r.wallet);
  }

  lemma CompletingKeepsGrants(s: Tables, r: Request, debit: bool)
    requires Inv(s) && Refused(s, r).None?
    ensures GrantsOk(Completing(s, r, debit).spending, s.people, s.catalog)
  {
  }

  lemma SpendKeepsInv(s: Tables, r: Request)
    requires Inv(s)
    ensures Inv(After(s, UnlockEpisode(s, r)))
  {
    if Refused(s, r).Some? {
    } else {
      AssessDebitIff(s, r);
      var charge := Assess(s, r);
      if charge.Denied? || charge.Replay? {
      } else {
        var debit := charge.Debit?;
        WalletIssued(s, r.who.id, r.wallet);
        KeyIsNew(s, r);
        CompletingKeepsDebits(s, r, debit);
        CompletingKeepsBooks(s, r, debit);
        CompletingKeepsCharges(s, r, debit);
        CompletingKeepsTerminals(s, r, debit);
        CompletingKeepsGrants(s, r, debit);
        assert Inv(Completing(s, r, debit));
        assert UnlockEpisode(s, r).tables == Completing(s, r, debit);
      }
    }
  }

  lemma ResolveKeepsInv(s: Tables, r: Request)
    requires Inv(s)
    ensures Inv(After(s, ResolveUnlock(s, r)))
  {
    if Unresolvable(s, r).Some? {
    } else {
      WalletIssued(s, r.who.id, r.wallet);
    }
  }

  lemma IdentifyKeepsInv(s: Tables, who: ProfileRef, wallet: WalletId, identity: Uuid)
    requires Inv(s)
    ensures Inv(After(s, PurchaseIdentity(s, who, wallet, identity)))
  {
    var result := PurchaseIdentity(s, who, wallet, identity);
    if result.Raised? {
    } else {
      WalletIssued(s, who.id, wallet);
      var w := WalletFor(s, who.id, wallet);
      if w !in s.store.identities.Values {
        var after := result.tables.store;
        assert after == s.store.(identities := s.store.identities[identity := w]);
        IdentityAdded(s.ledger, s.store, after, identity, w);
      }
    }
  }

  lemma IdentityAdded(ledger: seq<Entry>, before: Store, after: Store, identity: Uuid, w: WalletId)
    requires CreditsOk(ledger, before) && CreditKeysOk(before) && EventsOk(before) && Injective(before.identities)
    requires w !in before.identities.Values && identity !in before.identities
    requires after == before.(identities := before.identities[identity := w])
    ensures CreditsOk(ledger, after) && CreditKeysOk(after) && EventsOk(after) && Injective(after.identities)
  {
    forall k | k in after.decisions && after.decisions[k].Credited?
      ensures CreditLine(ledger, after.identities, after.decisions[k])
    {
      assert CreditLine(ledger, before.identities, before.decisions[k]);
    }
    forall e | e in after.events ensures Settled(after, TransactionOf(e)) {
      assert Settled(before, TransactionOf(e));
    }
    forall a | a in before.identities ensures before.identities[a] != w {
      assert before.identities[a] in before.identities.Values;
    }
  }

  // Accounts, staff and editors

  lemma SignInKeepsInv(s: Tables, uid: Uid)
    requires Inv(s)
    ensures Inv(After(s, GetOrCreateProfile(s, uid)))
  {
    if GetOrCreateProfile(s, uid).Raised? {
    } else {
      PeopleGrow(s, GetOrCreateProfile(s, uid).tables);
    }
  }

  lemma PeopleGrow(s: Tables, after: Tables)
    requires Inv(s) && PeopleOk(after.people) && after == s.(people := after.people)
    requires s.people.profiles.Keys <= after.people.profiles.Keys
    ensures Inv(after)
  {
  }

  lemma DeleteAccountKeepsInv(s: Tables, uid: Uid, authenticatedAt: Option<Instant>)
    requires Inv(s)
    ensures Inv(After(s, RequestDeletion(s, uid, authenticatedAt)))
  {
    var result := RequestDeletion(s, uid, authenticatedAt);
    if result.Raised? {
    } else {
      var doomed := set p | p in s.people.profiles && s.people.profiles[p].uid == uid;
      var after := result.tables;
      DetachedIsOk(s, doomed, after.people);
      CascadeKeepsCharges(s, doomed);
      CascadeKeepsAds(s, doomed, after.people);
      assert Inv(after);
    }
  }

  lemma DetachedIsOk(s: Tables, doomed: set<ProfileId>, people: People)
    requires Inv(s) && people.profiles == s.people.profiles - doomed
    ensures var wallets := Detached(s.wallets, doomed);
            && WalletsOk(wallets, people) && LinesOk(s.ledger, wallets)
            && IdentitiesOk(s.store, wallets) && TerminalsOk(WithoutProfiles(s, doomed).spending, wallets)
            && GrantsOk(WithoutProfiles(s, doomed).spending, people, s.catalog)
  {
  }

  lemma CascadeKeepsCharges(s: Tables, doomed: set<ProfileId>)
    requires Inv(s)
    ensures ChargesOk(WithoutProfiles(s, doomed).spending, Detached(s.wallets, doomed), s.catalog)
    ensures DebitsOk(s.ledger, WithoutProfiles(s, doomed).spending)
  {
  }

  lemma CascadeKeepsAds(s: Tables, doomed: set<ProfileId>, people: People)
    requires Inv(s) && people.profiles == s.people.profiles - doomed
    ensures AdsOk(WithoutProfiles(s, doomed).ads, people, s.catalog)
  {
    var before, after := s.ads, WithoutProfiles(s, doomed).ads;
    forall c, t ensures GrantedBy(after.intents, c, t) ==> GrantedBy(before.intents, c, t) {
    }
  }

  lemma RemoveEpisodeKeepsSpending(s: Tables, id: EpisodeId)
    requires GrantsOk(s.spending, s.people, s.catalog) && ChargesOk(s.spending, s.wallets, s.catalog)
    requires DebitsOk(s.ledger, s.spending)
    ensures var after := DeleteEpisode(s, id);
            && GrantsOk(after.spending, s.people, after.catalog) && ChargesOk(after.spending, s.wallets, after.catalog)
            && DebitsOk(s.ledger, after.spending)
  {
  }

  lemma RemoveEpisodeKeepsAds(s: Tables, id: EpisodeId)
    requires AdsOk(s.ads, s.people, s.catalog)
    ensures AdsOk(DeleteEpisode(s, id).ads, s.people, DeleteEpisode(s, id).catalog)
  {
    forall c, t ensures GrantedBy(DeleteEpisode(s, id).ads.intents, c, t) ==> GrantedBy(s.ads.intents, c, t) {
    }
  }

  lemma RemoveEpisodeKeepsInv(s: Tables, id: EpisodeId)
    requires Inv(s)
    ensures Inv(DeleteEpisode(s, id))
  {
    RemoveEpisodeKeepsSpending(s, id);
    RemoveEpisodeKeepsAds(s, id);
  }

  lemma EditEpisodeKeepsInv(s: Tables, id: EpisodeId, episode: Episode)
    requires Inv(s)
    ensures Inv(After(s, SaveEpisode(s, id, episode)))
  {
    if SaveEpisode(s, id, episode).Raised? {
    } else {
      var after := SaveEpisode(s, id, episode).tables;
      assert ChargesOk(after.spending, after.wallets, after.catalog);
      assert GrantsOk(after.spending, after.people, after.catalog);
    }
  }

  /** Any change of entitlements that stays on existing rows and keeps every coin grant. */
  lemma ManualGrantsKeepInv(s: Tables, after: Tables)
    requires Inv(s)
    requires after == s.(spending := s.spending.(entitlements := after.spending.entitlements))
    requires forall k :: k in after.spending.entitlements ==> k.0 in s.people.profiles && k.1 in s.catalog.episodes
    requires forall k :: k in s.spending.entitlements && s.spending.entitlements[k].Coins? ==>
               k in after.spending.entitlements && after.spending.entitlements[k].Coins?
    ensures Inv(after)
  {
    assert ChargesOk(after.spending, after.wallets, after.catalog);
    assert DebitsOk(after.ledger, after.spending);
  }

  lemma StaffKeepInv(
    s: Tables, p: ProfileId, episode: EpisodeId, source: Source, change: bool, selected: set<(ProfileId, EpisodeId)>)
    requires Inv(s)
    ensures Inv(After(s, StaffSave(s, p, episode, source, change)))
    ensures Inv(After(s, StaffDelete(s, selected)))
  {
    if StaffSave(s, p, episode, source, change).Raised? {
    } else {
      ManualGrantsKeepInv(s, StaffSave(s, p, episode, source, change).tables);
    }
    if StaffDelete(s, selected).Raised? {
    } else {
      ManualGrantsKeepInv(s, StaffDelete(s, selected).tables);
    }
  }

  // Rewards

  lemma IntentAdded(before: Ads, after: Ads, people: People, catalog: Catalog, custom: Uuid, intent: Intent)
    requires AdsOk(before, people, catalog) && custom !in before.intents
    requires (intent.profile, intent.request) !in before.requests
    requires intent.profile in people.profiles && intent.episode in catalog.episodes && intent.granted.None?
    requires after == Ads(before.intents[custom := intent], before.requests[(intent.profile, intent.request) := custom])
    ensures AdsOk(after, people, catalog)
  {
    forall c, t ensures GrantedBy(after.intents, c, t) <==> GrantedBy(before.intents, c, t) {
    }
  }

  lemma AskRewardKeepsInv(
    s: Tables, who: ProfileRef, episode: EpisodeId, request: RequestId, expected: Option<Version>, custom: Uuid,
    user: Uuid)
    requires Inv(s)
    ensures Inv(After(s, CreateIntent(s, who, episode, request, expected, custom, user)))
  {
    var result := CreateIntent(s, who, episode, request, expected, custom, user);
    if result.Raised? || !result.value.1 {
    } else {
      IntentAdded(s.ads, result.tables.ads, s.people, s.catalog, custom, result.tables.ads.intents[custom]);
    }
  }

  lemma RewardKeepsAds(s: Tables, c: Callback)
    requires AdsOk(s.ads, s.people, s.catalog) && Judge(s, c).GrantNow?
    ensures AdsOk(GrantReward(s, c).tables.ads, s.people, s.catalog)
  {
    var after := GrantReward(s, c).tables.ads;
    forall d, t ensures GrantedBy(after.intents, d, t) <==>
        GrantedBy(s.ads.intents, d, t) || (d == c.custom && t == c.transaction)
    {
    }
    forall d ensures !GrantedBy(s.ads.intents, d, c.transaction) {
      assert !TransactionUsed(s, c.transaction);
    }
  }

  lemma RewardKeepsInv(s: Tables, c: Callback)
    requires Inv(s)
    ensures Inv(After(s, GrantReward(s, c)))
  {
    if Judge(s, c).GrantNow? {
      RewardKeepsAds(s, c);
      var granted := GrantReward(s, c).tables;
      PendingHoldsNothing(s, c.custom);
      ManualGrantsKeepInv(s, s.(spending := granted.spending));
    } else {
    }
  }

  lemma CorrectKeepsInv(s: Tables, w: WalletId, reference: Uuid, amount: int)
    requires Inv(s)
    ensures Inv(Corrected(s, w, reference, amount))
  {
    if Postable(s, w, reference, Correction, amount) {
      var line := Entry(w, reference, Correction, amount, s.clock);
      LineAppended(s.ledger, s.wallets, line);
      OtherLineAppended(s.ledger, s.store, s.spending, line);
    }
  }

  // All runs

  predicate OnPacks(step: Step) { step.CreatePack? || step.ChangePack? }

  lemma PackStepKeepsInv(s: Tables, step: Step)
    requires Inv(s) && OnPacks(step)
    ensures Inv(Next(s, step))
  {
    match step
    case CreatePack(product, base, bonus, sortOrder, display, startsAt, endsAt, active) =>
      AddPackEvolves(s.packs, product, base, bonus, sortOrder, display, startsAt, endsAt, active, s.clock);
    case ChangePack(id, edited) => EditPackEvolves(s.packs, id, edited, s.clock);
  }

  lemma ConsentKeepsInv(s: Tables, p: ProfileId, consent: bool)
    requires Inv(s)
    ensures Inv(SetAdsConsent(s, p, consent))
  {
    if p in s.people.profiles {
      PeopleGrow(s, SetAdsConsent(s, p, consent));
    }
  }

  // Each kind of step

  lemma SignInStepKeepsInv(s: Tables, step: Step)
    requires Inv(s) && step.SignIn?
    ensures Inv(Next(s, step))
  {
    SignInKeepsInv(s, step.uid);
  }

  lemma ConsentStepKeepsInv(s: Tables, step: Step)
    requires Inv(s) && step.Consent?
    ensures Inv(Next(s, step))
  {
    ConsentKeepsInv(s, step.profile, step.consent);
  }

  lemma DeleteAccountStepKeepsInv(s: Tables, step: Step)
    requires Inv(s) && step.DeleteAccount?
    ensures Inv(Next(s, step))
  {
    DeleteAccountKeepsInv(s, step.uid, step.authenticatedAt);
  }

  lemma IdentifyStepKeepsInv(s: Tables, step: Step)
    requires Inv(s) && step.Identify?
    ensures Inv(Next(s, step))
  {
    IdentifyKeepsInv(s, step.who, step.wallet, step.identity);
  }

  lemma DeliverStepKeepsInv(s: Tables, step: Step)
    requires Inv(s) && step.Deliver?
    ensures Inv(Next(s, step))
  {
    DeliverKeepsInv(s, step.event, step.receipt);
  }

  lemma CorrectStepKeepsInv(s: Tables, step: Step)
    requires Inv(s) && step.Correct?
    ensures Inv(Next(s, step))
  {
    CorrectKeepsInv(s, step.wallet, step.reference, step.amount);
  }

  lemma SpendStepKeepsInv(s: Tables, step: Step)
    requires Inv(s) && step.Spend?
    ensures Inv(Next(s, step))
  {
    SpendKeepsInv(s, step.request);
  }

  lemma ResolveStepKeepsInv(s: Tables, step: Step)
    requires Inv(s) && step.Resolve?
    ensures Inv(Next(s, step))
  {
    ResolveKeepsInv(s, step.request);
  }

  lemma AskRewardStepKeepsInv(s: Tables, step: Step)
    requires Inv(s) && step.AskReward?
    ensures Inv(Next(s, step))
  {
    AskRewardKeepsInv(
      s, step.who, step.episodeId, step.requestId, step.expected, step.custom, step.user);
  }

  lemma CallbackStepKeepsInv(s: Tables, step: Step)
    requires Inv(s) && step.Reward?
    ensures Inv(Next(s, step))
  {
    RewardKeepsInv(s, step.callback);
  }

  lemma StaffGrantStepKeepsInv(s: Tables, step: Step)
    requires Inv(s) && step.StaffGrant?
    ensures Inv(Next(s, step))
  {
    StaffKeepInv(s, step.profile, step.episodeId, step.source, step.change, {});
  }

  lemma StaffRevokeStepKeepsInv(s: Tables, step: Step)
    requires Inv(s) && step.StaffRevoke?
    ensures Inv(Next(s, step))
  {
    StaffKeepInv(s, 0, 0, Staff, false, step.selected);
  }

  predicate OnPeople(step: Step) { step.SignIn? || step.Consent? || step.DeleteAccount? }

  lemma PeopleStepKeepsInv(s: Tables, step: Step)
    requires Inv(s) && OnPeople(step)
    ensures Inv(Next(s, step))
  {
    match step
    case SignIn(_) => SignInStepKeepsInv(s, step);
    case Consent(_, _) => ConsentStepKeepsInv(s, step);
    case DeleteAccount(_, _) => DeleteAccountStepKeepsInv(s, step);
  }

  predicate OnStore(step: Step) { step.Identify? || step.Deliver? || step.Correct? }

  lemma StoreStepKeepsInv(s: Tables, step: Step)
    requires Inv(s) && OnStore(step)
    ensures Inv(Next(s, step))
  {
    match step
    case Identify(_, _, _) => IdentifyStepKeepsInv(s, step);
    case Deliver(_, _) => DeliverStepKeepsInv(s, step);
    case Correct(_, _, _) => CorrectStepKeepsInv(s, step);
  }

  predicate OnSpending(step: Step) { step.Spend? || step.Resolve? }

  lemma SpendingStepKeepsInv(s: Tables, step: Step)
    requires Inv(s) && OnSpending(step)
    ensures Inv(Next(s, step))
  {
    match step
    case Spend(_) => SpendStepKeepsInv(s, step);
    case Resolve(_) => ResolveStepKeepsInv(s, step);
  }

  predicate OnRewards(step: Step) { step.AskReward? || step.Reward? }

  lemma RewardStepKeepsInv(s: Tables, step: Step)
    requires Inv(s) && OnRewards(step)
    ensures Inv(Next(s, step))
  {
    match step
    case AskReward(_, _, _, _, _, _) => AskRewardStepKeepsInv(s, step);
    case Reward(_) => CallbackStepKeepsInv(s, step);
  }

  predicate OnGrants(step: Step) { step.StaffGrant? || step.StaffRevoke? }

  lemma StaffStepKeepsInv(s: Tables, step: Step)
    requires Inv(s) && OnGrants(step)
    ensures Inv(Next(s, step))
  {
    match step
    case StaffGrant(_, _, _, _) => StaffGrantStepKeepsInv(s, step);
    case StaffRevoke(_) => StaffRevokeStepKeepsInv(s, step);
  }

  predicate OnCatalog(step: Step) { step.EditEpisode? || step.RemoveEpisode? }

  lemma CatalogStepKeepsInv(s: Tables, step: Step)
    requires Inv(s) && OnCatalog(step)
    ensures Inv(Next(s, step))
  {
    match step
    case EditEpisode(id, episode) => EditEpisodeKeepsInv(s, id, episode);
    case RemoveEpisode(id) => RemoveEpisodeKeepsInv(s, id);
  }

  lemma NextKeepsInv(s: Tables, step: Step)
    requires Inv(s)
    ensures Inv(Next(s, step))
  {
    if OnPacks(step) {
      PackStepKeepsInv(s, step);
    } else if OnPeople(step) {
      PeopleStepKeepsInv(s, step);
    } else if OnStore(step) {
      StoreStepKeepsInv(s, step);
    } else if OnSpending(step) {
      SpendingStepKeepsInv(s, step);
    } else if OnRewards(step) {
      RewardStepKeepsInv(s, step);
    } else if OnGrants(step) {
      StaffStepKeepsInv(s, step);
    } else if OnCatalog(step) {
      CatalogStepKeepsInv(s, step);
    } else if step.Tick? {
    } else {
      assert step.Configure?;
    }
  }

  /** Every state of every run satisfies every invariant. */
  lemma {:induction false} RunKeepsInv(s: Tables, steps: seq<Step>)
    requires Inv(s)
    ensures Inv(Run(s, steps))
    decreases |steps|
  {
    if steps != [] {
      NextKeepsInv(s, steps[0]);
      RunKeepsInv(Next(s, steps[0]), steps[1..]);
    }
  }
}
