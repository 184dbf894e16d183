/** Account creation and deletion, manual grants by staff, and editorial changes. */
module Accounts {
  import opened Wrappers
  import opened Packs
  import opened Policy
  import opened Tables

  const UID_MAX_LENGTH := 128
  const REAUTHENTICATION_WINDOW: Instant := 300 * 1_000_000

  /** `uid` is verified and stripped. */
  function GetOrCreateProfile(s: Tables, uid: Uid): Result<Uid> {
    if uid == "" || |uid| > UID_MAX_LENGTH then Raised(Integrity)
    else if uid in s.people.deletions then Raised(Revoked)
    else if exists p :: p in s.people.profiles && s.people.profiles[p].uid == uid then Done(uid, s)
    else Done(uid, s.(people := s.people.(
      profiles := s.people.profiles[s.people.nextProfile := Profile(uid, false)],
      nextProfile := s.people.nextProfile + 1)))
  }

  function SetAdsConsent(s: Tables, p: ProfileId, consent: bool): Tables {
    if p !in s.people.profiles then s
    else
      s.(people := s.people.(profiles := s.people.profiles[p := s.people.profiles[p].(adsConsent := consent)]))
  }

  /** Deleting profiles cascades to their entitlements and intents, and detaches their wallets. */
  function Detached(wallets: Wallets, doomed: set<ProfileId>): Wallets {
    Wallets(
      map w | w in wallets.owners ::
        if wallets.owners[w].Some? && wallets.owners[w].value in doomed then None else wallets.owners[w],
      wallets.walletOf - doomed)
  }

  function WithoutProfiles(s: Tables, doomed: set<ProfileId>): Tables {
    s.(
      people := s.people.(profiles := s.people.profiles - doomed),
      wallets := Detached(s.wallets, doomed),
      spending := s.spending.(
        entitlements := map k | k in s.spending.entitlements && k.0 !in doomed :: s.spending.entitlements[k]),
      ads := Ads(
        map c | c in s.ads.intents && s.ads.intents[c].profile !in doomed :: s.ads.intents[c],
        map k | k in s.ads.requests && k.0 !in doomed :: s.ads.requests[k]))
  }

  function RequestDeletion(s: Tables, uid: Uid, authenticatedAt: Option<Instant>): Result<Uid> {
    if authenticatedAt.None? || !(0 <= s.clock - authenticatedAt.value <= REAUTHENTICATION_WINDOW)
    then Raised(ReauthenticationRequired)
    else
      var doomed := set p | p in s.people.profiles && s.people.profiles[p].uid == uid;
      var s1 := WithoutProfiles(s, doomed);
      Done(uid, s1.(people := s1.people.(deletions := s.people.deletions + {uid})))
  }

  // Staff

  predicate Lockable(s: Tables, profiles: set<ProfileId>, episodes: set<EpisodeId>) {
    && (forall p :: p in profiles ==> p in s.people.profiles && s.people.profiles[p].uid !in s.people.deletions)
    && (forall e :: e in episodes ==> e in s.catalog.episodes)
  }

  /** Staff add or change one manual grant. */
  function StaffSave(s: Tables, p: ProfileId, episode: EpisodeId, source: Source, change: bool): Result<Source> {
    if !Lockable(s, {p}, {episode}) || source.Coins? then Raised(PermissionDenied)
    else if change != ((p, episode) in s.spending.entitlements) then Raised(Integrity)
    else if change && s.spending.entitlements[(p, episode)].Coins? then Raised(PermissionDenied)
    else Done(source, s.(spending := s.spending.(entitlements := s.spending.entitlements[(p, episode) := source])))
  }

  /** Staff delete a selection of grants; one coin grant among them refuses the whole selection. */
  function StaffDelete(s: Tables, selected: set<(ProfileId, EpisodeId)>): Result<bool> {
    if !Lockable(s, set k | k in selected :: k.0, set k | k in selected :: k.1) then Raised(PermissionDenied)
    else if exists k :: k in selected && k in s.spending.entitlements && s.spending.entitlements[k].Coins?
    then Raised(PermissionDenied)
    else Done(true, s.(spending := s.spending.(entitlements := s.spending.entitlements - selected)))
  }

  // Editors

  /** Editors add an episode under a new identifier or change an existing one, but never its series. */
  function SaveEpisode(s: Tables, id: EpisodeId, episode: Episode): Result<EpisodeId> {
    if id in s.catalog.withdrawn || !PriceValid(episode) then Raised(Integrity)
    else if id in s.catalog.episodes && s.catalog.episodes[id].series != episode.series then Raised(PermissionDenied)
    else Done(id, s.(catalog := s.catalog.(episodes := s.catalog.episodes[id := episode])))
  }

  /** Deleting an episode cascades to its entitlements and intents; financial history stays. */
  function DeleteEpisode(s: Tables, id: EpisodeId): Tables {
    s.(
      catalog := Catalog(s.catalog.episodes - {id}, s.catalog.withdrawn + {id}),
      spending := s.spending.(
        entitlements := map k | k in s.spending.entitlements && k.1 != id :: s.spending.entitlements[k]),
      ads := Ads(
        map c | c in s.ads.intents && s.ads.intents[c].episode != id :: s.ads.intents[c],
        map k | k in s.ads.requests && s.ads.requests[k] in s.ads.intents
                && s.ads.intents[s.ads.requests[k]].episode != id :: s.ads.requests[k]))
  }

  /** No staff edit adds, removes or rewrites a coin grant. */
  lemma StaffSaveKeepsCoinGrants(s: Tables, p: ProfileId, episode: EpisodeId, source: Source, change: bool)
    ensures forall q, e ::
              Held(After(s, StaffSave(s, p, episode, source, change)), q, e) == Some(Coins) <==>
              Held(s, q, e) == Some(Coins)
  {
  }

  /** No staff deletion removes a coin grant. */
  lemma StaffDeleteKeepsCoinGrants(s: Tables, selected: set<(ProfileId, EpisodeId)>)
    ensures forall q, e ::
              Held(After(s, StaffDelete(s, selected)), q, e) == Some(Coins) <==> Held(s, q, e) == Some(Coins)
  {
  }

  /** After an accepted deletion request the identity has no profile, its wallet has no owner, and no
      profile for it can be created again. */
  lemma DeletionIsFinal(s: Tables, uid: Uid, authenticatedAt: Option<Instant>)
    requires RequestDeletion(s, uid, authenticatedAt).Done?
    ensures var after := RequestDeletion(s, uid, authenticatedAt).tables;
            && (forall p :: p in after.people.profiles ==> after.people.profiles[p].uid != uid)
            && (forall w :: Attached(after, w) <==>
                  && Attached(s, w)
                  && !(&& s.wallets.owners[w].value in s.people.profiles
                       && s.people.profiles[s.wallets.owners[w].value].uid == uid))
            && After(after, GetOrCreateProfile(after, uid)) == after
            && after.ledger == s.ledger
  {
  }
}
