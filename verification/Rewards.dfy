/** Rewarded adverts: an intent binds one account, episode and policy; a verified callback grants it. */
module Rewards {
  import opened Wrappers
  import opened Packs
  import opened Policy
  import opened Tables

  const INTENT_LIFETIME: Instant := 15 * 60 * 1_000_000
  const EARLY_TOLERANCE: Instant := 1_000_000
  const CLOCK_SKEW: Instant := 60 * 1_000_000

  datatype Callback = Callback(transaction: string, custom: Uuid, user: Uuid, adUnit: string, timestamp: Instant)

  /** The part of an ad unit after its last slash. */
  function UnitName(adUnit: string): string {
    if adUnit == [] || adUnit[|adUnit| - 1] == '/' then ""
    else UnitName(adUnit[..|adUnit| - 1]) + [adUnit[|adUnit| - 1]]
  }

  predicate OfferAvailable(s: Tables, episode: EpisodeId, p: ProfileId)
    requires episode in s.catalog.episodes && p in s.people.profiles
  {
    RewardOffered(episode, s.catalog.episodes[episode], s.settings.adsMode, s.people.profiles[p].adsConsent,
                  Held(s, p, episode), s.settings.spendingEnabled)
  }

  function CurrentVersion(s: Tables, episode: EpisodeId): Version
    requires episode in s.catalog.episodes
  {
    ResolvePolicy(episode, s.catalog.episodes[episode], s.settings.adsMode).version
  }

  /** `custom` and `user` are the opaque values drawn for a new intent. The flag says it was created. */
  function CreateIntent(
    s: Tables, who: ProfileRef, episode: EpisodeId, request: RequestId, expected: Option<Version>,
    custom: Uuid, user: Uuid): Result<(Uuid, bool)>
  {
    if !Current(s, who) then Raised(AuthenticationFailed)
    else if (who.id, request) in s.ads.requests
    then
      var existing := s.ads.requests[(who.id, request)];
      if existing in s.ads.intents && s.ads.intents[existing].episode == episode && episode in s.catalog.episodes
      then Done((existing, false), s) else Raised(RewardUnavailable)
    else if episode !in s.catalog.episodes || !s.catalog.episodes[episode].eligible then Raised(NotFound)
    else if !OfferAvailable(s, episode, who.id) then Raised(RewardUnavailable)
    else if expected.Some? && expected.value != CurrentVersion(s, episode) then Raised(RewardUnavailable)
    else if custom in s.ads.intents then Raised(Integrity)
    else
      var intent := Intent(who.id, episode, request, user, s.settings.adUnit, Some(CurrentVersion(s, episode)),
                           s.clock, s.clock + INTENT_LIFETIME, None);
      Done((custom, true), s.(ads := Ads(s.ads.intents[custom := intent], s.ads.requests[(who.id, request) := custom])))
  }

  datatype RewardStatus = StatusGranted | StatusExpired | StatusUnavailable | StatusPending

  function StatusOf(s: Tables, custom: Uuid): RewardStatus
    requires custom in s.ads.intents ==>
        s.ads.intents[custom].profile in s.people.profiles && s.ads.intents[custom].episode in s.catalog.episodes
  {
    if custom !in s.ads.intents then StatusUnavailable
    else
      var intent := s.ads.intents[custom];
      if intent.granted.Some? then StatusGranted
      else if intent.expiresAt <= s.clock then StatusExpired
      else if intent.version != Some(CurrentVersion(s, intent.episode)) || intent.adUnit != s.settings.adUnit
              || !OfferAvailable(s, intent.episode, intent.profile) then StatusUnavailable
      else StatusPending
  }

  predicate GrantedBy(intents: map<Uuid, Intent>, c: Uuid, transaction: string) {
    c in intents && intents[c].granted.Some? && intents[c].granted.value.transaction == transaction
  }

  predicate TransactionUsed(s: Tables, transaction: string) {
    exists c :: c in s.ads.intents && GrantedBy(s.ads.intents, c, transaction)
  }

  datatype Verdict = Acknowledge | Deny | GrantNow

  /** The decision on a callback whose intent, account and episode are locked. */
  function Judge(s: Tables, c: Callback): Verdict {
    if s.settings.adsMode.AdsDisabled? || c.custom !in s.ads.intents then Deny
    else
      var intent := s.ads.intents[c.custom];
      if intent.profile !in s.people.profiles || s.people.profiles[intent.profile].uid in s.people.deletions
         || intent.episode !in s.catalog.episodes
         || intent.user != c.user
      then Deny
      else if c.adUnit != UnitName(intent.adUnit) || intent.adUnit != s.settings.adUnit then Deny
      else if intent.granted.Some?
      then if intent.granted.value.transaction == c.transaction && intent.granted.value.timestamp == c.timestamp
           then Acknowledge else Deny
      else if !(intent.createdAt - EARLY_TOLERANCE <= c.timestamp < intent.expiresAt) then Deny
      else if s.clock >= intent.expiresAt || c.timestamp > s.clock + CLOCK_SKEW then Deny
      else if TransactionUsed(s, c.transaction) then Deny
      else if intent.version != Some(CurrentVersion(s, intent.episode))
              || !OfferAvailable(s, intent.episode, intent.profile)
      then Deny
      else if SourceRefused(s, intent) then Deny
      else GrantNow
  }

  /** The entitlement found or created for the reward has a source that denies it. */
  predicate SourceRefused(s: Tables, intent: Intent) {
    Held(s, intent.profile, intent.episode).GetOr(Reward).Coins?
  }

  function GrantReward(s: Tables, c: Callback): Result<bool> {
    match Judge(s, c)
    case Deny => Raised(InvalidCallback)
    case Acknowledge => Done(false, s)
    case GrantNow =>
      var intent := s.ads.intents[c.custom];
      var key := (intent.profile, intent.episode);
      Done(true, s.(
        spending := s.spending.(
          entitlements := s.spending.entitlements[key := Held(s, intent.profile, intent.episode).GetOr(Reward)]),
        ads := s.ads.(
          intents := s.ads.intents[
            c.custom := intent.(granted := Some(Granted(s.clock, c.transaction, c.timestamp)))])))
  }

  // What a callback does

  /** A grant happens exactly when the callback matches a pending, unexpired intent and a fresh
      transaction; it creates the account's entitlement in the same step. */
  lemma GrantCreatesEntitlementIff(s: Tables, c: Callback)
    requires c.custom in s.ads.intents ==>
        s.ads.intents[c.custom].profile in s.people.profiles && s.ads.intents[c.custom].episode in s.catalog.episodes
    ensures var r := GrantReward(s, c);
            && (After(s, r).spending.entitlements != s.spending.entitlements <==> r.Done? && r.value)
            && (After(s, r).spending.entitlements != s.spending.entitlements ==>
                  && c.custom in s.ads.intents
                  && var intent := s.ads.intents[c.custom];
                  && StatusOf(s, c.custom) == StatusPending
                  && Held(s, intent.profile, intent.episode).None?
                  && After(s, r).spending.entitlements
                     == s.spending.entitlements[(intent.profile, intent.episode) := Reward]
                  && StatusOf(After(s, r), c.custom) == StatusGranted)
  {
    if Judge(s, c).GrantNow? {
      PendingHoldsNothing(s, c.custom);
      var intent := s.ads.intents[c.custom];
      var key := (intent.profile, intent.episode);
      assert key !in s.spending.entitlements;
      assert s.spending.entitlements[key := Reward] != s.spending.entitlements by {
        assert key in s.spending.entitlements[key := Reward];
      }
    }
  }

  lemma PendingHoldsNothing(s: Tables, custom: Uuid)
    requires custom in s.ads.intents && s.ads.intents[custom].profile in s.people.profiles
    requires s.ads.intents[custom].episode in s.catalog.episodes
    requires OfferAvailable(s, s.ads.intents[custom].episode, s.ads.intents[custom].profile)
    ensures Held(s, s.ads.intents[custom].profile, s.ads.intents[custom].episode).None?
  {
    var intent := s.ads.intents[custom];
    RewardNeedsNoEntitlement(
      intent.episode, s.catalog.episodes[intent.episode], s.settings.adsMode,
      s.people.profiles[intent.profile].adsConsent,
      Held(s, intent.profile, intent.episode), s.settings.spendingEnabled);
  }

  /** The guard on the entitlement's source is never what denies a callback: whenever it would fire, an
      earlier check has already denied. */
  lemma SourceCheckNeverFires(s: Tables, custom: Uuid)
    requires custom in s.ads.intents && s.ads.intents[custom].profile in s.people.profiles
    requires s.ads.intents[custom].episode in s.catalog.episodes
    ensures SourceRefused(s, s.ads.intents[custom]) ==>
        !OfferAvailable(s, s.ads.intents[custom].episode, s.ads.intents[custom].profile)
  {
    if OfferAvailable(s, s.ads.intents[custom].episode, s.ads.intents[custom].profile) {
      PendingHoldsNothing(s, custom);
    }
  }

  /** Repeating the callback that granted an intent is acknowledged and writes nothing. */
  lemma GrantIsIdempotent(s: Tables, c: Callback)
    requires GrantReward(s, c).Done? && GrantReward(s, c).value
    ensures var after := After(s, GrantReward(s, c)); GrantReward(after, c) == Done(false, after)
  {
  }
}
