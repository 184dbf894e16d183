/** When each operation on accounts, episodes and coins succeeds, what it answers and what it writes,
    stated over the stored rows: of what these lemmas are about they name nothing but the sum of a wallet
    and the last part of an ad unit. */
module Answers {
  import opened Wrappers
  import opened Registry
  import opened Packs
  import opened Policy
  import opened Tables
  import opened Unlocks
  import opened Rewards
  import opened Accounts
  import opened Invariants

  ghost predicate SignedIn(s: Tables, who: ProfileRef) {
    && who.id in s.people.profiles && s.people.profiles[who.id].uid == who.uid
    && who.uid !in s.people.deletions
  }

  // Access to an episode

  predicate ForFree(e: Episode) {
    e.mode.Free? || (e.mode.Inherit? && 1 <= e.order <= e.freeEpisodes)
  }

  predicate ForAdverts(e: Episode) {
    e.mode.RewardedAd? || e.mode.Both? || (e.mode.Inherit? && !(1 <= e.order <= e.freeEpisodes))
  }

  predicate ForCoins(e: Episode) {
    e.mode.Coin? || e.mode.Both?
  }

  function Inputs(id: EpisodeId, e: Episode, ads: AdsMode): Version {
    Version(id, e.series, e.mode, e.price, e.order, e.freeEpisodes, e.adsEnabled, ads)
  }

  /** The policy of an episode is its own mode, or, inherited, free for the first episodes and against
      adverts for the others. Its version changes with every input. */
  lemma PolicyIs(id: EpisodeId, episode: Episode, ads: AdsMode)
    ensures var policy := ResolvePolicy(id, episode, ads);
            && (policy.mode.Free? <==> ForFree(episode))
            && (policy.mode.RewardedAd? || policy.mode.Both? <==> ForAdverts(episode))
            && (policy.mode.Coin? || policy.mode.Both? <==> ForCoins(episode))
            && (policy.adAvailable <==> ForAdverts(episode) && episode.adsEnabled && !ads.AdsDisabled?)
            && policy.price == episode.price && policy.version == Inputs(id, episode, ads)
  {
  }

  /** Eligibility comes first; then an entitlement grants by its source; then a free episode grants; and
      everything else is locked, for want of an account exactly when there is none. */
  lemma AccessIff(
    id: EpisodeId, episode: Episode, ads: AdsMode, eligible: bool, signedIn: bool, held: Option<Source>)
    ensures var access := Authorize(id, episode, ads, eligible, signedIn, held);
            && (access.Ineligible? <==> !eligible)
            && (forall source ::
                  access == Grant(ByEntitlement(source)) <==> eligible && signedIn && held == Some(source))
            && (access == Grant(ByFreeWindow) <==> eligible && !(signedIn && held.Some?) && ForFree(episode))
            && (forall login ::
                  access == Lock(login) <==>
                    eligible && !(signedIn && held.Some?) && !ForFree(episode) && login == !signedIn)
  {
  }

  /** What the offers are, in full. */
  lemma OffersAre(
    id: EpisodeId, episode: Episode, ads: AdsMode, eligible: bool, signedIn: bool, held: Option<Source>, spending: bool)
    ensures var offers := EvaluateOffers(id, episode, ads, eligible, signedIn, held, spending);
            var version := Inputs(id, episode, ads);
            var entitled := signedIn && held.Some?;
            && (offers.OffersIneligible? <==> !eligible)
            && (eligible && entitled ==> offers == OffersGranted([EntitlementMethod], version, episode.price))
            && (eligible && !entitled && ForFree(episode) ==>
                  offers == OffersGranted([FreeMethod], version, episode.price))
            && (eligible && !entitled && !ForFree(episode) ==>
                  && offers.OffersLocked? && offers.loginRequired == !signedIn
                  && offers.version == version && offers.price == episode.price
                  && (RewardedAdMethod in offers.methods <==>
                        signedIn && ForAdverts(episode) && episode.adsEnabled && !ads.AdsDisabled?)
                  && (CoinMethod in offers.methods <==>
                        signedIn && spending && ForCoins(episode) && episode.price.Some?)
                  && (forall i :: 0 <= i < |offers.methods| ==> offers.methods[i] in {RewardedAdMethod, CoinMethod})
                  && (forall i, j :: 0 <= i < j < |offers.methods| ==>
                        offers.methods[i].RewardedAdMethod? && offers.methods[j].CoinMethod?))
  {
  }

  /** An advert is offered to this account for this episode. */
  ghost predicate Advertised(s: Tables, id: EpisodeId, p: ProfileId) {
    && id in s.catalog.episodes && p in s.people.profiles
    && var episode := s.catalog.episodes[id];
    && episode.eligible && ForAdverts(episode) && episode.adsEnabled && !s.settings.adsMode.AdsDisabled?
    && s.people.profiles[p].adsConsent && (p, id) !in s.spending.entitlements
  }

  lemma AdvertisedIff(s: Tables, id: EpisodeId, p: ProfileId)
    requires id in s.catalog.episodes && p in s.people.profiles
    ensures OfferAvailable(s, id, p) <==> Advertised(s, id, p)
  {
    OffersAre(id, s.catalog.episodes[id], s.settings.adsMode, s.catalog.episodes[id].eligible, true, Held(s, p, id),
              s.settings.spendingEnabled);
  }

  // Unlocking

  /** The account's wallet, or the one it gets. */
  function OwnWallet(s: Tables, r: Request): WalletId {
    if r.who.id in s.wallets.walletOf then s.wallets.walletOf[r.who.id] else r.wallet
  }

  function OwnWallets(s: Tables, r: Request): Wallets {
    if r.who.id in s.wallets.walletOf then s.wallets
    else Wallets(s.wallets.owners[r.wallet := Some(r.who.id)], s.wallets.walletOf[r.who.id := r.wallet])
  }

  ghost predicate HasWallet(s: Tables, r: Request) {
    r.who.id in s.wallets.walletOf || r.wallet !in s.wallets.owners
  }

  ghost predicate HasReceipt(s: Tables, r: Request) {
    r.who.id in s.wallets.walletOf && (s.wallets.walletOf[r.who.id], r.id) in s.spending.unlocks
  }

  ghost predicate HasCancellation(s: Tables, r: Request) {
    r.who.id in s.wallets.walletOf && (s.wallets.walletOf[r.who.id], r.id) in s.spending.cancellations
  }

  /** The account may spend, and the episode can be watched before and after the wallet is locked. */
  ghost predicate MayGoOn(s: Tables, r: Request) {
    && SignedIn(s, r.who) && s.settings.spendingEnabled && !HasCancellation(s, r)
    && r.terms.episode in s.catalog.episodes && s.catalog.episodes[r.terms.episode].eligible && r.stillEligible
    && HasWallet(s, r)
  }

  /** The episode costs the account nothing: it holds it, or it is free. */
  ghost predicate NothingToPay(s: Tables, r: Request)
    requires r.terms.episode in s.catalog.episodes
  {
    (r.who.id, r.terms.episode) in s.spending.entitlements || ForFree(s.catalog.episodes[r.terms.episode])
  }

  lemma AccessOf(s: Tables, r: Request)
    requires r.terms.episode in s.catalog.episodes
    ensures var episode := s.catalog.episodes[r.terms.episode];
            var held := Held(s, r.who.id, r.terms.episode);
            var access := Authorize(r.terms.episode, episode, s.settings.adsMode, r.stillEligible, true, held);
            access.Grant? <==> r.stillEligible && NothingToPay(s, r)
  {
  }

  /** A repeated request is answered exactly while the account could watch the episode and repeats its
      terms; the answer is the stored receipt and the wallet's balance, and nothing is written. */
  lemma ReplayIff(s: Tables, r: Request)
    requires HasReceipt(s, r)
    ensures var w := s.wallets.walletOf[r.who.id];
            var stored := s.spending.unlocks[(w, r.id)];
            && (UnlockEpisode(s, r).Done? <==> MayGoOn(s, r) && stored.terms == r.terms && NothingToPay(s, r))
            && (UnlockEpisode(s, r).Done? ==> UnlockEpisode(s, r) == Done((stored, Balance(s.ledger, w)), s))
  {
    if r.terms.episode in s.catalog.episodes {
      AccessOf(s, r);
    }
  }

  /** The terms the account confirmed are the current ones, the wallet can pay, and its debit passes the
      constraints of the ledger. */
  ghost predicate CanPay(s: Tables, r: Request)
    requires r.terms.episode in s.catalog.episodes
  {
    var episode, w := s.catalog.episodes[r.terms.episode], OwnWallet(s, r);
    && ForCoins(episode) && episode.price == Some(r.terms.price)
    && r.terms.version == Inputs(r.terms.episode, episode, s.settings.adsMode)
    && Balance(s.ledger, w) >= r.terms.price
  }

  ghost predicate DebitFits(s: Tables, r: Request) {
    var w := OwnWallet(s, r);
    && 1 <= r.terms.price <= 2147483647
    && (forall i :: 0 <= i < |s.ledger| ==> s.ledger[i].reference != r.reference)
    && (r.who.id in s.wallets.walletOf ==> w in s.wallets.owners && s.wallets.owners[w].Some?)
    && 0 <= Balance(s.ledger, w) - r.terms.price <= 9007199254740991
  }

  /** The rows a completed request leaves. */
  ghost function Completes(s: Tables, r: Request, receipt: Receipt, ledger: seq<Entry>, paid: bool): Tables {
    s.(
      wallets := OwnWallets(s, r), ledger := ledger,
      spending := Spending(
        s.spending.unlocks[(OwnWallet(s, r), r.id) := receipt], s.spending.cancellations,
        if paid then s.spending.entitlements[(r.who.id, r.terms.episode) := Coins] else s.spending.entitlements))
  }

  /** A new request for an episode that costs nothing is completed exactly when it may go on, with a
      receipt over no coins; nothing else is written. */
  lemma FreeUnlockIff(s: Tables, r: Request)
    requires !HasReceipt(s, r) && r.terms.episode in s.catalog.episodes && NothingToPay(s, r)
    ensures UnlockEpisode(s, r).Done? <==> MayGoOn(s, r)
    ensures UnlockEpisode(s, r).Done? ==>
      var receipt := Receipt(r.terms, 0, None);
      UnlockEpisode(s, r) ==
        Done((receipt, Balance(s.ledger, OwnWallet(s, r))), Completes(s, r, receipt, s.ledger, false))
  {
    AccessOf(s, r);
  }

  /** A new request for any other episode is completed exactly when it may go on and is paid: the price
      leaves the wallet on one line, the receipt names that line, and the account holds the episode. */
  lemma PaidUnlockIff(s: Tables, r: Request)
    requires !HasReceipt(s, r) && r.terms.episode in s.catalog.episodes && !NothingToPay(s, r)
    ensures UnlockEpisode(s, r).Done? <==> MayGoOn(s, r) && CanPay(s, r) && DebitFits(s, r)
    ensures UnlockEpisode(s, r).Done? ==>
      var receipt := Receipt(r.terms, r.terms.price, Some(|s.ledger|));
      var line := Entry(OwnWallet(s, r), r.reference, Unlock, 0 - r.terms.price, s.clock);
      UnlockEpisode(s, r) ==
        Done((receipt, Balance(s.ledger, OwnWallet(s, r)) - r.terms.price),
             Completes(s, r, receipt, s.ledger + [line], true))
  {
    AccessOf(s, r);
    PolicyIs(r.terms.episode, s.catalog.episodes[r.terms.episode], s.settings.adsMode);
    if Refused(s, r).None? {
      AssessDebitIff(s, r);
      if Chargeable(s, r) {
        ChargedBalance(s, r);
      }
    }
  }

  /** Whatever a request is for, it is answered only if the account may spend and the episode is there and
      eligible. */
  lemma AnsweredMayGoOn(s: Tables, r: Request)
    requires UnlockEpisode(s, r).Done?
    ensures MayGoOn(s, r)
  {
  }

  /** Which refusal is told: a lost account first, then an unavailable episode, then a key or a line that
      the tables reject; every other refusal is that coins cannot unlock it. */
  lemma UnlockErrors(s: Tables, r: Request)
    requires UnlockEpisode(s, r).Raised?
    ensures var error := UnlockEpisode(s, r).error;
            var known := SignedIn(s, r.who) && s.settings.spendingEnabled && !HasCancellation(s, r)
              && (HasReceipt(s, r) ==> s.spending.unlocks[(s.wallets.walletOf[r.who.id], r.id)].terms == r.terms);
            var found := r.terms.episode in s.catalog.episodes && s.catalog.episodes[r.terms.episode].eligible;
            && (error == AuthenticationFailed <==> !SignedIn(s, r.who))
            && (error == NotFound <==> known && (!found || (HasWallet(s, r) && !r.stillEligible)))
            && (error == Integrity <==>
                  known && found
                  && (!HasWallet(s, r)
                      || (r.stillEligible && !HasReceipt(s, r) && !NothingToPay(s, r) && CanPay(s, r))))
            && error in {AuthenticationFailed, NotFound, Integrity, CoinUnavailable}
  {
    if r.terms.episode in s.catalog.episodes {
      AccessOf(s, r);
      PolicyIs(r.terms.episode, s.catalog.episodes[r.terms.episode], s.settings.adsMode);
    }
  }

  // Resolving

  /** A resolution is answered exactly for a current account while spending is on, and for the terms of
      the stored outcome if there is one. */
  lemma ResolveIff(s: Tables, r: Request)
    ensures var key := (OwnWallet(s, r), r.id);
            ResolveUnlock(s, r).Done? <==>
              && SignedIn(s, r.who) && s.settings.spendingEnabled && HasWallet(s, r)
              && (key in s.spending.unlocks ==> s.spending.unlocks[key].terms == r.terms)
              && (key !in s.spending.unlocks && key in s.spending.cancellations ==>
                    s.spending.cancellations[key] == r.terms)
              && (key !in s.spending.unlocks && key !in s.spending.cancellations ==> 1 <= r.terms.price <= 2147483647)
  {
  }

  /** It answers "completed" exactly for a stored receipt, with that receipt; and "cancelled" exactly when
      the request is cancelled afterwards, with the stored terms. The balance told is the wallet's. Nothing
      is written but the cancellation and a first wallet. */
  lemma ResolveAnswers(s: Tables, r: Request)
    requires Inv(s) && ResolveUnlock(s, r).Done?
    ensures var key := (OwnWallet(s, r), r.id);
            var answer := ResolveUnlock(s, r);
            var after := answer.tables.spending;
            && answer.value.1 == Balance(s.ledger, OwnWallet(s, r))
            && (forall receipt ::
                  answer.value.0 == Completed(receipt) <==>
                    key in s.spending.unlocks && s.spending.unlocks[key] == receipt)
            && (forall terms ::
                  answer.value.0 == Cancelled(terms) <==>
                    key in after.cancellations && after.cancellations[key] == terms)
            && (answer.value.0.Completed? ==> after == s.spending)
            && (answer.value.0.Cancelled? ==>
                  after == s.spending.(cancellations := s.spending.cancellations[key := r.terms]))
            && answer.tables == s.(wallets := OwnWallets(s, r), spending := after)
  {
    var key := (OwnWallet(s, r), r.id);
    if key in s.spending.unlocks {
      assert key !in s.spending.cancellations;
    }
  }

  lemma ResolveErrors(s: Tables, r: Request)
    requires ResolveUnlock(s, r).Raised?
    ensures var error, key := ResolveUnlock(s, r).error, (OwnWallet(s, r), r.id);
            && (error == AuthenticationFailed <==> !SignedIn(s, r.who))
            && (error == Integrity <==>
                  && SignedIn(s, r.who) && s.settings.spendingEnabled
                  && (!HasWallet(s, r)
                      || (&& key !in s.spending.unlocks && key !in s.spending.cancellations
                          && !(1 <= r.terms.price <= 2147483647))))
            && error in {AuthenticationFailed, Integrity, CoinUnavailable}
  {
  }

  // Reward intents

  /** A request that has an intent is answered with it exactly for its own episode. */
  lemma RepeatedIntentIff(
    s: Tables, who: ProfileRef, episode: EpisodeId, request: RequestId, expected: Option<Version>,
    custom: Uuid, user: Uuid)
    requires (who.id, request) in s.ads.requests
    ensures var existing := s.ads.requests[(who.id, request)];
            var answer := CreateIntent(s, who, episode, request, expected, custom, user);
            && (answer.Done? <==>
                  && SignedIn(s, who) && existing in s.ads.intents
                  && s.ads.intents[existing].episode == episode && episode in s.catalog.episodes)
            && (answer.Done? ==> answer == Done((existing, false), s))
            && (answer.Raised? ==> answer.error == if SignedIn(s, who) then RewardUnavailable else AuthenticationFailed)
  {
  }

  /** A new request gets an intent exactly when an advert is offered to the account and the policy is still
      the one it saw; the intent binds the account, the episode, the ad unit and the policy for 15 minutes. */
  lemma NewIntentIff(
    s: Tables, who: ProfileRef, episode: EpisodeId, request: RequestId, expected: Option<Version>,
    custom: Uuid, user: Uuid)
    requires (who.id, request) !in s.ads.requests
    ensures var answer := CreateIntent(s, who, episode, request, expected, custom, user);
            && (answer.Done? <==>
                  && SignedIn(s, who) && Advertised(s, episode, who.id)
                  && (expected.Some? ==>
                        expected.value == Inputs(episode, s.catalog.episodes[episode], s.settings.adsMode))
                  && custom !in s.ads.intents)
            && (answer.Done? ==>
                  var version := Inputs(episode, s.catalog.episodes[episode], s.settings.adsMode);
                  var intent := Intent(who.id, episode, request, user, s.settings.adUnit, Some(version),
                                       s.clock, s.clock + 900_000_000, None);
                  answer == Done((custom, true), s.(
                    ads := Ads(s.ads.intents[custom := intent], s.ads.requests[(who.id, request) := custom]))))
            && (answer.Raised? ==>
                  && (answer.error == AuthenticationFailed <==> !SignedIn(s, who))
                  && (answer.error == NotFound <==>
                        && SignedIn(s, who)
                        && !(episode in s.catalog.episodes && s.catalog.episodes[episode].eligible))
                  && (answer.error == Integrity ==> custom in s.ads.intents)
                  && answer.error in {AuthenticationFailed, NotFound, RewardUnavailable, Integrity})
  {
    if SignedIn(s, who) && episode in s.catalog.episodes {
      AdvertisedIff(s, episode, who.id);
    }
  }

  // Reward callbacks

  /** The last part of an ad unit is what follows its last slash. */
  lemma {:induction false} UnitNameIsLastPart(adUnit: string)
    ensures var name := UnitName(adUnit);
            && '/' !in name && |name| <= |adUnit| && adUnit[|adUnit| - |name|..] == name
            && (|name| < |adUnit| ==> adUnit[|adUnit| - |name| - 1] == '/')
  {
    if adUnit == [] || adUnit[|adUnit| - 1] == '/' {
    } else {
      UnitNameIsLastPart(adUnit[..|adUnit| - 1]);
    }
  }

  /** The callback names an intent of a current account for an episode that is there, under the intent's
      own user value, from the ad unit it was created for, which is still the configured one. */
  ghost predicate Matches(s: Tables, c: Callback) {
    && !s.settings.adsMode.AdsDisabled? && c.custom in s.ads.intents
    && var intent := s.ads.intents[c.custom];
    && intent.profile in s.people.profiles && s.people.profiles[intent.profile].uid !in s.people.deletions
    && intent.episode in s.catalog.episodes && intent.user == c.user
    && c.adUnit == UnitName(intent.adUnit) && intent.adUnit == s.settings.adUnit
  }

  /** It was earned no earlier than a second before the intent and before the intent expires, it arrives
      before that too, and it is at most a minute ahead of the clock. */
  ghost predicate Timely(s: Tables, c: Callback, intent: Intent) {
    && intent.createdAt - 1_000_000 <= c.timestamp < intent.expiresAt
    && s.clock < intent.expiresAt && c.timestamp <= s.clock + 60_000_000
  }

  /** A callback grants exactly when it matches an intent that is not granted, is timely, its provider
      transaction has granted nothing that is stored, the policy is still the intent's, and the advert is
      still offered. It is acknowledged exactly when it is the one that granted. */
  lemma VerdictIff(s: Tables, c: Callback)
    ensures Judge(s, c).GrantNow? <==>
      && Matches(s, c)
      && var intent := s.ads.intents[c.custom];
      && intent.granted.None? && Timely(s, c, intent)
      && (forall d :: d in s.ads.intents && s.ads.intents[d].granted.Some? ==>
            s.ads.intents[d].granted.value.transaction != c.transaction)
      && intent.version == Some(Inputs(intent.episode, s.catalog.episodes[intent.episode], s.settings.adsMode))
      && Advertised(s, intent.episode, intent.profile)
    ensures Judge(s, c).Acknowledge? <==>
      && Matches(s, c)
      && var intent := s.ads.intents[c.custom];
      && intent.granted.Some? && intent.granted.value.transaction == c.transaction
      && intent.granted.value.timestamp == c.timestamp
  {
    if Matches(s, c) {
      AdvertisedIff(s, s.ads.intents[c.custom].episode, s.ads.intents[c.custom].profile);
      SourceCheckNeverFires(s, c.custom);
      TransactionUsedIff(s, c.transaction);
    }
  }

  lemma TransactionUsedIff(s: Tables, transaction: string)
    ensures TransactionUsed(s, transaction) <==>
            exists d :: d in s.ads.intents && s.ads.intents[d].granted.Some?
              && s.ads.intents[d].granted.value.transaction == transaction
  {
    if d :| d in s.ads.intents && s.ads.intents[d].granted.Some?
            && s.ads.intents[d].granted.value.transaction == transaction {
      assert GrantedBy(s.ads.intents, d, transaction);
    }
  }

  /** A grant writes the entitlement and stamps the intent; everything else writes nothing. */
  lemma RewardAnswers(s: Tables, c: Callback)
    ensures var answer := GrantReward(s, c);
            && (Judge(s, c).GrantNow? ==>
                  var intent := s.ads.intents[c.custom];
                  var granted := intent.(granted := Some(Granted(s.clock, c.transaction, c.timestamp)));
                  answer == Done(true, s.(
                    spending := s.spending.(
                      entitlements := s.spending.entitlements[(intent.profile, intent.episode) := Source.Reward]),
                    ads := s.ads.(intents := s.ads.intents[c.custom := granted]))))
            && (Judge(s, c).Acknowledge? ==> answer == Done(false, s))
            && (Judge(s, c).Deny? ==> answer == Raised(InvalidCallback))
  {
    VerdictIff(s, c);
  }

  /** What an account is told about its intent. */
  lemma StatusIff(s: Tables, custom: Uuid)
    requires custom in s.ads.intents
    requires s.ads.intents[custom].profile in s.people.profiles && s.ads.intents[custom].episode in s.catalog.episodes
    ensures var intent, status := s.ads.intents[custom], StatusOf(s, custom);
            var open := intent.granted.None? && s.clock < intent.expiresAt;
            && (status.StatusGranted? <==> intent.granted.Some?)
            && (status.StatusExpired? <==> intent.granted.None? && intent.expiresAt <= s.clock)
            && (status.StatusPending? <==>
                  && open && intent.adUnit == s.settings.adUnit && Advertised(s, intent.episode, intent.profile)
                  && intent.version
                     == Some(Inputs(intent.episode, s.catalog.episodes[intent.episode], s.settings.adsMode)))
  {
    AdvertisedIff(s, s.ads.intents[custom].episode, s.ads.intents[custom].profile);
  }

  // Accounts

  /** A verified identity signs in exactly when it is 1 to 128 characters long and was never deleted; it
      keeps its profile if it has one, and gets a new one otherwise. */
  lemma SignInIff(s: Tables, uid: Uid)
    ensures var answer := GetOrCreateProfile(s, uid);
            var known := exists p :: p in s.people.profiles && s.people.profiles[p].uid == uid;
            && (answer.Done? <==> 1 <= |uid| <= 128 && uid !in s.people.deletions)
            && (answer.Done? && known ==> answer == Done(uid, s))
            && (answer.Done? && !known ==>
                  var n := s.people.nextProfile;
                  answer == Done(uid, s.(
                    people := People(s.people.profiles[n := Profile(uid, false)], n + 1, s.people.deletions))))
            && (answer.Raised? ==> answer.error == if 1 <= |uid| <= 128 then Revoked else Integrity)
  {
  }

  /** A deletion is accepted exactly within 300 seconds of a sign-in. */
  lemma DeletionIff(s: Tables, uid: Uid, authenticatedAt: Option<Instant>)
    ensures var answer := RequestDeletion(s, uid, authenticatedAt);
            && (answer.Done? <==>
                  authenticatedAt.Some? && 0 <= s.clock - authenticatedAt.value <= 300_000_000)
            && (answer.Raised? ==> answer.error == ReauthenticationRequired)
  {
  }

  ghost predicate IsOf(s: Tables, p: ProfileId, uid: Uid) {
    p in s.people.profiles && s.people.profiles[p].uid == uid
  }

  /** It takes the account's profile, entitlements and intents, detaches its wallet, records the identity,
      and leaves every row of every other account as it was. */
  lemma DeletionTakesOwnRowsOnly(s: Tables, uid: Uid, authenticatedAt: Option<Instant>)
    requires RequestDeletion(s, uid, authenticatedAt).Done?
    ensures var after := RequestDeletion(s, uid, authenticatedAt).tables;
            && after.people.deletions == s.people.deletions + {uid}
            && after.people.nextProfile == s.people.nextProfile
            && (forall p :: p in after.people.profiles <==> p in s.people.profiles && !IsOf(s, p, uid))
            && (forall p :: p in after.people.profiles ==> after.people.profiles[p] == s.people.profiles[p])
            && after == s.(
                 people := after.people, wallets := after.wallets, spending := after.spending, ads := after.ads)
  {
  }

  lemma DeletionKeepsOtherEntitlements(s: Tables, uid: Uid, authenticatedAt: Option<Instant>)
    requires RequestDeletion(s, uid, authenticatedAt).Done?
    ensures var after := RequestDeletion(s, uid, authenticatedAt).tables.spending;
            && (forall k :: k in after.entitlements <==> k in s.spending.entitlements && !IsOf(s, k.0, uid))
            && (forall k :: k in after.entitlements ==> after.entitlements[k] == s.spending.entitlements[k])
            && after == s.spending.(entitlements := after.entitlements)
  {
  }

  lemma DeletionKeepsOtherIntents(s: Tables, uid: Uid, authenticatedAt: Option<Instant>)
    requires RequestDeletion(s, uid, authenticatedAt).Done?
    ensures var after := RequestDeletion(s, uid, authenticatedAt).tables.ads;
            && (forall c :: c in after.intents <==> c in s.ads.intents && !IsOf(s, s.ads.intents[c].profile, uid))
            && (forall c :: c in after.intents ==> after.intents[c] == s.ads.intents[c])
            && (forall k :: k in after.requests <==> k in s.ads.requests && !IsOf(s, k.0, uid))
            && (forall k :: k in after.requests ==> after.requests[k] == s.ads.requests[k])
  {
  }

  lemma DeletionKeepsOtherWallets(s: Tables, uid: Uid, authenticatedAt: Option<Instant>)
    requires RequestDeletion(s, uid, authenticatedAt).Done?
    ensures var after := RequestDeletion(s, uid, authenticatedAt).tables.wallets;
            && after.owners.Keys == s.wallets.owners.Keys
            && (forall w :: w in s.wallets.owners ==>
                  after.owners[w] ==
                    if s.wallets.owners[w].Some? && IsOf(s, s.wallets.owners[w].value, uid) then None
                    else s.wallets.owners[w])
            && (forall p :: p in after.walletOf <==> p in s.wallets.walletOf && !IsOf(s, p, uid))
            && (forall p :: p in after.walletOf ==> after.walletOf[p] == s.wallets.walletOf[p])
  {
  }

  // Staff and editors

  ghost predicate IsCurrent(s: Tables, p: ProfileId) {
    p in s.people.profiles && s.people.profiles[p].uid !in s.people.deletions
  }

  /** Staff save a grant exactly for a current account and an episode that is there, never to or from coins,
      adding one that is new or changing one that is there. */
  lemma StaffSaveIff(s: Tables, p: ProfileId, episode: EpisodeId, source: Source, change: bool)
    ensures var answer := StaffSave(s, p, episode, source, change);
            && (answer.Done? <==>
                  && IsCurrent(s, p) && episode in s.catalog.episodes && source != Coins
                  && (change <==> (p, episode) in s.spending.entitlements)
                  && (change ==> s.spending.entitlements[(p, episode)] != Coins))
            && (answer.Done? ==>
                  answer == Done(source, s.(
                    spending := s.spending.(entitlements := s.spending.entitlements[(p, episode) := source]))))
  {
  }

  /** Staff delete a selection exactly when all its accounts are current and its episodes there, and no coin
      grant is among it. */
  lemma StaffDeleteIff(s: Tables, selected: set<(ProfileId, EpisodeId)>)
    ensures var answer := StaffDelete(s, selected);
            && (answer.Done? <==>
                  forall k :: k in selected ==>
                    && IsCurrent(s, k.0) && k.1 in s.catalog.episodes
                    && (k in s.spending.entitlements ==> s.spending.entitlements[k] != Coins))
            && (answer.Done? ==>
                  answer == Done(true, s.(
                    spending := s.spending.(entitlements := s.spending.entitlements - selected))))
            && (answer.Raised? ==> answer.error == PermissionDenied)
  {
    if StaffDelete(s, selected).Done? {
      forall k | k in selected
        ensures IsCurrent(s, k.0) && k.1 in s.catalog.episodes
      {
        assert k.0 in (set j | j in selected :: j.0) && k.1 in (set j | j in selected :: j.1);
      }
    }
  }

  /** Editors save an episode exactly when its mode and price fit, it was never withdrawn, and it stays in
      its series. */
  lemma SaveEpisodeIff(s: Tables, id: EpisodeId, episode: Episode)
    ensures var answer := SaveEpisode(s, id, episode);
            && (answer.Done? <==>
                  && id !in s.catalog.withdrawn
                  && (ForCoins(episode) ==> episode.price.Some? && episode.price.value > 0)
                  && (!ForCoins(episode) ==> episode.price.None?)
                  && (id in s.catalog.episodes ==> s.catalog.episodes[id].series == episode.series))
            && (answer.Done? ==>
                  answer == Done(id, s.(catalog := s.catalog.(episodes := s.catalog.episodes[id := episode]))))
  {
  }

  /** Deleting an episode takes its entitlements and intents and nothing else. */
  lemma DeleteEpisodeTakesItsRowsOnly(s: Tables, id: EpisodeId)
    ensures var after := DeleteEpisode(s, id);
            && after.catalog == Catalog(s.catalog.episodes - {id}, s.catalog.withdrawn + {id})
            && (forall k :: k in after.spending.entitlements <==> k in s.spending.entitlements && k.1 != id)
            && (forall k :: k in after.spending.entitlements ==>
                  after.spending.entitlements[k] == s.spending.entitlements[k])
            && (forall c :: c in after.ads.intents <==> c in s.ads.intents && s.ads.intents[c].episode != id)
            && (forall c :: c in after.ads.intents ==> after.ads.intents[c] == s.ads.intents[c])
            && after == s.(
                 catalog := after.catalog, ads := after.ads,
                 spending := s.spending.(entitlements := after.spending.entitlements))
  {
  }
}
