/** Which locks each transaction takes, as a function of the rows it finds; and that whatever a
    transaction writes is locked. */
module LockPlans {
  import opened Wrappers
  import opened Registry
  import opened Packs
  import opened Policy
  import opened Tables
  import opened Purchases
  import opened Unlocks
  import opened Rewards
  import opened Accounts
  import opened Locks

  /** The ranks are the keys of the profiles there are. */
  ghost predicate Ranked(rank: Rank, s: Tables) {
    forall p :: p in s.people.profiles ==> rank(s.people.profiles[p].uid) == p
  }

  ghost function AccountLocks(who: ProfileRef): seq<Lock> {
    [AccountLock(who.uid), ProfileRow(who.uid, who.id)]
  }

  /** The reference of a profile that is there. */
  ghost function RefOf(s: Tables, p: ProfileId): ProfileRef
    requires p in s.people.profiles
  {
    ProfileRef(p, s.people.profiles[p].uid)
  }

  ghost function EpisodeLocks(s: Tables, id: EpisodeId): seq<Lock> {
    if id !in s.catalog.episodes then []
    else [SeriesRow(s.catalog.episodes[id].series), EpisodeRow(s.catalog.episodes[id].series, id)]
  }

  // Deliveries

  ghost function ApplicationLocks(s: Tables, e: Event): seq<Lock>
    requires s.settings.registry.Some?
  {
    match Scope(s.settings.registry.value, e.app)
    case None => []
    case Some(scope) => [AppLock(e.app), ApplicationLock(scope.application)]
  }

  ghost function TransactionLocks(e: Event, application: Option<ApplicationId>): seq<Lock> {
    [RawLock(TransactionOf(e))]
    + if application.Some? then [ResolvedLock(ResolvedKey(TransactionOf(e), application.value))] else []
  }

  /** The account a delivery names, if its wallet has an owner. */
  ghost function OwnerOf(s: Tables, owner: Owner): Option<ProfileRef> {
    if owner.Canonical? && owner.id in s.store.identities && Attached(s, s.store.identities[owner.id])
       && s.wallets.owners[s.store.identities[owner.id]].value in s.people.profiles
    then Some(RefOf(s, s.wallets.owners[s.store.identities[owner.id]].value))
    else None
  }

  ghost function CreditLocks(s: Tables, owner: Owner): seq<Lock> {
    match OwnerOf(s, owner)
    case None => []
    case Some(who) =>
      AccountLocks(who) + if Current(s, who) then [WalletRow(who.uid, s.store.identities[owner.id])] else []
  }

  /** A new transaction locks its owner unless it is refused for another reason. */
  ghost function DecideLocks(s: Tables, e: Event, conflict: bool): seq<Lock>
    requires s.settings.registry.Some?
  {
    var refusal := Refusal(s, e, conflict);
    if refusal.Some? && refusal.value != UnknownOrDeletedOwner then [] else CreditLocks(s, e.owner)
  }

  ghost predicate Undecided(s: Tables, e: Event, application: Option<ApplicationId>) {
    RawKey(e) !in s.store.decisions && KeyFor(e, application) !in s.store.decisions && application.Some?
  }

  ghost function SettleLocks(s: Tables, e: Event, application: Option<ApplicationId>, conflict: bool): seq<Lock>
    requires s.settings.registry.Some?
  {
    TransactionLocks(e, application) + if Undecided(s, e, application) then DecideLocks(s, e, conflict) else []
  }

  ghost function FulfillLocks(s: Tables, e: Event): seq<Lock> {
    if !s.settings.purchasesEnabled then []
    else if e in s.store.events || s.settings.registry.None? then [EventLock(KeyOf(e))]
    else [EventLock(KeyOf(e))] + ApplicationLocks(s, e) + SettleLocks(s, e, Application(s, e), Conflict(s, e))
  }

  ghost function IdentityLocks(s: Tables, who: ProfileRef, wallet: WalletId): seq<Lock> {
    if !s.settings.purchasesEnabled || s.settings.registry.None? then []
    else
      AccountLocks(who)
      + if Current(s, who) && WalletReady(s, who.id, wallet)
        then [WalletRow(who.uid, WalletFor(s, who.id, wallet))] else []
  }

  // Spending

  /** The request is turned away while only the account is locked. */
  ghost predicate TurnedAway(s: Tables, r: Request) {
    var existing := Completion(s, r.who.id, r.id);
    || !Current(s, r.who) || !s.settings.spendingEnabled || IsCancelled(s, r.who.id, r.id)
    || (existing.Some? && existing.value.terms != r.terms)
  }

  ghost function UnlockLocks(s: Tables, r: Request): seq<Lock> {
    if TurnedAway(s, r) then AccountLocks(r.who)
    else
      var locks := AccountLocks(r.who) + EpisodeLocks(s, r.terms.episode);
      if r.terms.episode in s.catalog.episodes && s.catalog.episodes[r.terms.episode].eligible
         && WalletReady(s, r.who.id, r.wallet)
      then locks + [WalletRow(r.who.uid, WalletFor(s, r.who.id, r.wallet))] else locks
  }

  ghost function ResolveLocks(s: Tables, r: Request): seq<Lock> {
    AccountLocks(r.who)
    + if Current(s, r.who) && s.settings.spendingEnabled && WalletReady(s, r.who.id, r.wallet)
      then [WalletRow(r.who.uid, WalletFor(s, r.who.id, r.wallet))] else []
  }

  // Rewards

  ghost function IntentLocks(s: Tables, who: ProfileRef, episode: EpisodeId, request: RequestId): seq<Lock> {
    if !Current(s, who) then AccountLocks(who)
    else if (who.id, request) !in s.ads.requests then AccountLocks(who) + EpisodeLocks(s, episode)
    else
      var existing := s.ads.requests[(who.id, request)];
      if existing !in s.ads.intents then AccountLocks(who)
      else
        var locks := AccountLocks(who) + EpisodeLocks(s, s.ads.intents[existing].episode);
        if s.ads.intents[existing].episode == episode && episode in s.catalog.episodes
        then locks + [IntentRow(who.uid, existing)] else locks
  }

  ghost function GrantLocks(s: Tables, c: Callback): seq<Lock> {
    if s.settings.adsMode.AdsDisabled? then []
    else if c.custom !in s.ads.intents || s.ads.intents[c.custom].profile !in s.people.profiles
    then [AdvertLock(c.transaction)]
    else
      var who := RefOf(s, s.ads.intents[c.custom].profile);
      var locks := [AdvertLock(c.transaction)] + AccountLocks(who);
      if Current(s, who)
      then locks + EpisodeLocks(s, s.ads.intents[c.custom].episode) + [IntentRow(who.uid, c.custom)] else locks
  }

  // Accounts

  ghost function SignInLocks(s: Tables, uid: Uid, rank: Rank): seq<Lock> {
    if uid == "" || |uid| > UID_MAX_LENGTH then []
    else
      [AccountLock(uid)]
      + if uid !in s.people.deletions && exists p :: p in s.people.profiles && s.people.profiles[p].uid == uid
        then [ProfileRow(uid, rank(uid))] else []
  }

  ghost function ProfilesOf(s: Tables, uid: Uid): set<ProfileId> {
    set p | p in s.people.profiles && s.people.profiles[p].uid == uid
  }

  /** Every row of an account: its profile, wallet, intents and entitlements. */
  ghost function AccountRows(s: Tables, uid: Uid): set<Lock> {
    (set p | p in ProfilesOf(s, uid) :: ProfileRow(uid, p))
    + (set w | w in s.wallets.owners && Attached(s, w) && s.wallets.owners[w].value in ProfilesOf(s, uid) ::
         WalletRow(uid, w))
    + (set c | c in s.ads.intents && s.ads.intents[c].profile in ProfilesOf(s, uid) :: IntentRow(uid, c))
    + (set k | k in s.spending.entitlements && k.0 in ProfilesOf(s, uid) :: EntitlementRow(uid, k.1))
  }

  /** `rows` are the rows of an account, each once, in whatever order the cascades of a deletion reach
      them. */
  ghost predicate Cascading(s: Tables, uid: Uid, rows: seq<Lock>) {
    && (forall i, j :: 0 <= i < j < |rows| ==> rows[i] != rows[j])
    && (forall lock :: lock in rows <==> lock in AccountRows(s, uid))
  }

  lemma CascadeIsOfAccount(s: Tables, uid: Uid, rows: seq<Lock>)
    requires Cascading(s, uid, rows)
    ensures forall lock :: lock in rows ==> OfAccount(lock) && lock.uid == uid
  {
  }

  // Staff

  /** The accounts and episodes of a manual change. An orderly sequence is determined by its set, up to
      the rows of accounts. */
  ghost function TargetLocks(s: Tables, profiles: set<ProfileId>, episodes: set<EpisodeId>): set<Lock>
    requires Lockable(s, profiles, episodes)
  {
    (set p | p in profiles :: AccountLock(s.people.profiles[p].uid))
    + (set p | p in profiles :: ProfileRow(s.people.profiles[p].uid, p))
    + (set e | e in episodes :: SeriesRow(s.catalog.episodes[e].series))
    + (set e | e in episodes :: EpisodeRow(s.catalog.episodes[e].series, e))
  }

  ghost function EntitlementRows(s: Tables, selected: seq<(ProfileId, EpisodeId)>): seq<Lock>
    requires forall k :: k in selected ==> k.0 in s.people.profiles
  {
    seq(|selected|, i requires 0 <= i < |selected| =>
      assert selected[i] in selected;
      EntitlementRow(s.people.profiles[selected[i].0].uid, selected[i].1))
  }

  /** `rows` lists a selection's existing rows, each once, in whatever order the query returns them. */
  ghost predicate Queried(s: Tables, selected: set<(ProfileId, EpisodeId)>, rows: seq<(ProfileId, EpisodeId)>) {
    && (forall i, j :: 0 <= i < j < |rows| ==> rows[i] != rows[j])
    && (forall k :: k in rows <==> k in selected && k in s.spending.entitlements)
  }

  /** The bindings a delivery has just made do not change what else it locks. */
  lemma PlansIgnoreBindings(
    s: Tables, bindings: map<AppId, ApplicationId>, e: Event, application: Option<ApplicationId>, conflict: bool)
    requires s.settings.registry.Some?
    ensures SettleLocks(s.(store := s.store.(bindings := bindings)), e, application, conflict)
         == SettleLocks(s, e, application, conflict)
  {
  }

  // Whatever is written is locked

  /** A delivery that moves coins holds its event, both keys of its transaction, the owner it names and the
      wallet it credits. */
  lemma CreditIsLocked(s: Tables, e: Event, receipt: Uuid)
    requires Creditable(s, e, receipt)
    ensures var w := s.store.identities[e.owner.id];
            var who := RefOf(s, s.wallets.owners[w].value);
            FulfillLocks(s, e) ==
              [EventLock(KeyOf(e)), AppLock(e.app), ApplicationLock(Application(s, e).value), RawLock(TransactionOf(e)),
               ResolvedLock(ResolvedKey(TransactionOf(e), Application(s, e).value)),
               AccountLock(who.uid), ProfileRow(who.uid, who.id), WalletRow(who.uid, w)]
  {
    assert KeyOf(e) == KeyOf(e);
    assert e !in s.store.events;
    assert Refusal(s, e, false).None?;
  }

  /** A delivery that decides anything, or records anything, holds its event and the raw key of its
      transaction, and a decision under its application's key that key too. */
  lemma DecisionIsLocked(s: Tables, e: Event, receipt: Uuid)
    requires Purchases.Fulfill(s, e, receipt).Done? && e !in s.store.events
    ensures EventLock(KeyOf(e)) in FulfillLocks(s, e) && RawLock(TransactionOf(e)) in FulfillLocks(s, e)
    ensures var used := Purchases.Fulfill(s, e, receipt).value.decision;
            used == RawKey(e) || ResolvedLock(used) in FulfillLocks(s, e)
  {
    var application := Application(s, e);
    assert TransactionLocks(e, application)[0] == RawLock(TransactionOf(e));
    assert RawLock(TransactionOf(e)) in SettleLocks(s, e, application, Conflict(s, e));
    if application.Some? {
      assert TransactionLocks(e, application)[1] == ResolvedLock(KeyFor(e, application));
      assert ResolvedLock(KeyFor(e, application)) in SettleLocks(s, e, application, Conflict(s, e));
    }
  }

  /** An unlock that is answered holds the account, the episode with its series, and the wallet. */
  lemma UnlockIsLocked(s: Tables, r: Request)
    requires Unlocks.UnlockEpisode(s, r).Done?
    ensures var series := s.catalog.episodes[r.terms.episode].series;
            UnlockLocks(s, r) ==
              AccountLocks(r.who) + [SeriesRow(series), EpisodeRow(series, r.terms.episode),
                                     WalletRow(r.who.uid, WalletFor(s, r.who.id, r.wallet))]
  {
  }

  lemma ResolveIsLocked(s: Tables, r: Request)
    requires Unlocks.ResolveUnlock(s, r).Done?
    ensures ResolveLocks(s, r) ==
              AccountLocks(r.who) + [WalletRow(r.who.uid, WalletFor(s, r.who.id, r.wallet))]
  {
  }

  /** A callback that grants holds its provider transaction, the account, the episode and the intent. */
  lemma GrantIsLocked(s: Tables, c: Callback)
    requires Judge(s, c).GrantNow?
    ensures var intent := s.ads.intents[c.custom];
            var series := s.catalog.episodes[intent.episode].series;
            var who := RefOf(s, intent.profile);
            GrantLocks(s, c) ==
              [AdvertLock(c.transaction)] + AccountLocks(who)
              + [SeriesRow(series), EpisodeRow(series, intent.episode), IntentRow(who.uid, c.custom)]
  {
  }

  /** A deletion changes rows of its own account only, and every one it removes or detaches is locked. */
  lemma DeletionIsLocked(s: Tables, uid: Uid, authenticatedAt: Option<Instant>, cascade: seq<Lock>)
    requires Cascading(s, uid, cascade)
    ensures var after := After(s, Accounts.RequestDeletion(s, uid, authenticatedAt));
            && (forall p :: p in s.people.profiles && p !in after.people.profiles ==> ProfileRow(uid, p) in cascade)
            && (forall w :: w in s.wallets.owners && after.wallets.owners[w] != s.wallets.owners[w] ==>
                  WalletRow(uid, w) in cascade)
            && (forall c :: c in s.ads.intents && c !in after.ads.intents ==> IntentRow(uid, c) in cascade)
            && (forall k :: k in s.spending.entitlements && k !in after.spending.entitlements ==>
                  EntitlementRow(uid, k.1) in cascade)
  {
  }
}
