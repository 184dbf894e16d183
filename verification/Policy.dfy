/** Editorial access policy of one episode, and what it lets one account do. */
module Policy {
  import opened Wrappers

  type EpisodeId = nat

  datatype AccessMode = Inherit | Free | RewardedAd | Coin | Both

  datatype AdsMode = AdsDisabled | AdsTest | AdsProduction

  /** An episode row with the fields of its series that the policy reads. `eligible` is the verdict of
      catalogue eligibility at the current instant. */
  datatype Episode = Episode(
    series: nat,
    order: nat,
    mode: AccessMode,
    price: Option<nat>,
    freeEpisodes: nat,
    adsEnabled: bool,
    eligible: bool)

  /** The table's check constraint on mode and price. */
  predicate PriceValid(episode: Episode) {
    if episode.mode.Coin? || episode.mode.Both? then episode.price.Some? && episode.price.value > 0
    else episode.price.None?
  }

  /** The hashed policy inputs: equal versions mean equal inputs. */
  datatype Version = Version(
    id: EpisodeId, series: nat, mode: AccessMode, price: Option<nat>, order: nat,
    freeEpisodes: nat, adsEnabled: bool, adsMode: AdsMode)

  datatype ResolvedPolicy = ResolvedPolicy(
    mode: AccessMode, price: Option<nat>, adAvailable: bool, version: Version)

  function EffectiveMode(episode: Episode): AccessMode {
    if !episode.mode.Inherit? then episode.mode
    else if 1 <= episode.order <= episode.freeEpisodes then Free
    else RewardedAd
  }

  function ResolvePolicy(id: EpisodeId, episode: Episode, adsMode: AdsMode): ResolvedPolicy {
    var mode := EffectiveMode(episode);
    ResolvedPolicy(
      mode,
      episode.price,
      (mode.RewardedAd? || mode.Both?) && episode.adsEnabled && !adsMode.AdsDisabled?,
      Version(id, episode.series, episode.mode, episode.price, episode.order,
              episode.freeEpisodes, episode.adsEnabled, adsMode))
  }

  datatype Source = Staff | Reward | Coins

  datatype GrantSource = ByEntitlement(source: Source) | ByFreeWindow

  datatype Access = Ineligible | Grant(source: GrantSource) | Lock(loginRequired: bool)

  /** `held` is the account's entitlement to this episode; no account is `signedIn == false`. */
  function Authorize(
    id: EpisodeId, episode: Episode, adsMode: AdsMode, eligible: bool, signedIn: bool,
    held: Option<Source>): Access {
    if !eligible then Ineligible
    else if signedIn && held.Some? then Grant(ByEntitlement(held.value))
    else if ResolvePolicy(id, episode, adsMode).mode.Free? then Grant(ByFreeWindow)
    else Lock(!signedIn)
  }

  datatype Method = EntitlementMethod | FreeMethod | RewardedAdMethod | CoinMethod

  datatype Offers = OffersIneligible
                  | OffersGranted(methods: seq<Method>, version: Version, price: Option<nat>)
                  | OffersLocked(loginRequired: bool, methods: seq<Method>, version: Version, price: Option<nat>)

  function EvaluateOffers(
    id: EpisodeId, episode: Episode, adsMode: AdsMode, eligible: bool, signedIn: bool, held: Option<Source>,
    spendingEnabled: bool): Offers
  {
    var policy := ResolvePolicy(id, episode, adsMode);
    match Authorize(id, episode, adsMode, eligible, signedIn, held)
    case Ineligible => OffersIneligible
    case Grant(source) =>
      OffersGranted([if source.ByFreeWindow? then FreeMethod else EntitlementMethod], policy.version, policy.price)
    case Lock(loginRequired) =>
      var ad := if signedIn && policy.adAvailable then [RewardedAdMethod] else [];
      var coin := if signedIn && spendingEnabled && (policy.mode.Coin? || policy.mode.Both?) && policy.price.Some?
                  then [CoinMethod] else [];
      OffersLocked(loginRequired, ad + coin, policy.version, policy.price)
  }

  /** A rewarded advert may be offered to this consenting account. */
  predicate RewardOffered(
    id: EpisodeId, episode: Episode, adsMode: AdsMode, adsConsent: bool, held: Option<Source>, spendingEnabled: bool)
  {
    if adsMode.AdsDisabled? || !adsConsent then false
    else
      var offers := EvaluateOffers(id, episode, adsMode, episode.eligible, true, held, spendingEnabled);
      offers.OffersLocked? && RewardedAdMethod in offers.methods
  }

  /** What the buyer accepted is what is charged: an offer carrying a coin method and the terms it shows
      pass the unlock's own checks while the policy inputs are unchanged. */
  lemma OfferedCoinTermsAreAccepted(
    id: EpisodeId, shown: Episode, current: Episode, adsMode: AdsMode, spending: bool, held: Option<Source>)
    requires PriceValid(shown)
    ensures var offers := EvaluateOffers(id, shown, adsMode, shown.eligible, true, held, spending);
            offers.OffersLocked? && CoinMethod in offers.methods
              && ResolvePolicy(id, current, adsMode).version == offers.version
            ==>
              var policy := ResolvePolicy(id, current, adsMode);
              && (policy.mode.Coin? || policy.mode.Both?)
              && policy.price == offers.price
              && policy.price.Some? && policy.price.value > 0
              && Authorize(id, current, adsMode, true, true, held).Lock?
  {
  }

  /** Offers never contradict authorization: a held entitlement or the free window always shows a single
      granted method, and a locked answer never shows one. */
  lemma OffersAgreeWithAccess(
    id: EpisodeId, episode: Episode, adsMode: AdsMode, eligible: bool, signedIn: bool, held: Option<Source>,
    spending: bool)
    ensures var access := Authorize(id, episode, adsMode, eligible, signedIn, held);
            var offers := EvaluateOffers(id, episode, adsMode, eligible, signedIn, held, spending);
            && (access.Grant? <==> offers.OffersGranted?)
            && (access.Lock? <==> offers.OffersLocked?)
            && (offers.OffersGranted? ==> 
                 && |offers.methods| == 1
                 && (offers.methods[0] == FreeMethod <==> EffectiveMode(episode).Free? && !(signedIn && held.Some?)))
            && (offers.OffersLocked? && offers.methods != [] ==> signedIn && held.None?)
  {
  }

  /** A rewarded advert is offered only when nothing is held yet. */
  lemma RewardNeedsNoEntitlement(
    id: EpisodeId, episode: Episode, adsMode: AdsMode, adsConsent: bool, held: Option<Source>, spending: bool)
    ensures RewardOffered(id, episode, adsMode, adsConsent, held, spending) <==>
            && !adsMode.AdsDisabled? && adsConsent && held.None? && episode.eligible
            && (EffectiveMode(episode).RewardedAd? || EffectiveMode(episode).Both?) && episode.adsEnabled
  {
  }
}
