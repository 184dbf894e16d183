/** What runs keep about deleted accounts, reward intents and offered coin packs. */
module Lifecycles {
  import opened Wrappers
  import opened Registry
  import opened Packs
  import opened Policy
  import opened Tables
  import opened Purchases
  import opened Unlocks
  import opened Rewards
  import opened Accounts
  import opened Invariants
  import opened Protocol
  import opened Runs
  import LockPlans

  // Deleted accounts

  lemma DeletionsAreKept(s: Tables, step: Step)
    ensures s.people.deletions <= Next(s, step).people.deletions
  {
  }

  /** Once an identity has a deletion receipt, no later state has a profile for it. */
  lemma {:induction false} DeletedNeverReturns(s: Tables, steps: seq<Step>, uid: Uid)
    requires Inv(s) && uid in s.people.deletions
    ensures forall p :: p in Run(s, steps).people.profiles ==> Run(s, steps).people.profiles[p].uid != uid
    decreases |steps|
  {
    if steps != [] {
      NextKeepsInv(s, steps[0]);
      DeletionsAreKept(s, steps[0]);
      DeletedNeverReturns(Next(s, steps[0]), steps[1..], uid);
    }
  }

  /** An identity that is there twice is there under one key. */
  lemma {:induction false} KeepsItsKey(s: Tables, steps: seq<Step>, p: ProfileId, q: ProfileId)
    requires Inv(s) && p in s.people.profiles && q in Run(s, steps).people.profiles
    requires s.people.profiles[p].uid == Run(s, steps).people.profiles[q].uid
    ensures p == q
    decreases |steps|
  {
    if steps != [] {
      var uid, after := s.people.profiles[p].uid, Next(s, steps[0]);
      NextKeepsInv(s, steps[0]);
      ProfileStaysOrIsDeleted(s, steps[0], p);
      if p in after.people.profiles {
        KeepsItsKey(after, steps[1..], p, q);
      } else {
        DeletedNeverReturns(after, steps[1..], uid);
      }
    }
  }

  lemma ProfileStaysOrIsDeleted(s: Tables, step: Step, p: ProfileId)
    requires p in s.people.profiles
    requires PeopleOk(s.people)
    ensures if p in Next(s, step).people.profiles then Next(s, step).people.profiles[p].uid == s.people.profiles[p].uid
            else s.people.profiles[p].uid in Next(s, step).people.deletions
  {
    if step.SignIn? || step.Consent? || step.DeleteAccount? {
    } else {
      OthersKeepPeople(s, step);
    }
  }

  lemma OthersKeepPeople(s: Tables, step: Step)
    requires !step.SignIn? && !step.Consent? && !step.DeleteAccount?
    ensures Next(s, step).people == s.people
  {
  }

  /** The key under which an identity first has a profile in a run. */
  ghost function KeyOver(s: Tables, steps: seq<Step>, uid: Uid): nat
    decreases |steps|
  {
    if p :| p in s.people.profiles && s.people.profiles[p].uid == uid then p
    else if steps == [] then 0
    else KeyOver(Next(s, steps[0]), steps[1..], uid)
  }

  lemma {:induction false} KeyOverIsTheKey(s: Tables, steps: seq<Step>, n: nat, q: ProfileId)
    requires Inv(s) && n <= |steps| && q in Run(s, steps[..n]).people.profiles
    ensures KeyOver(s, steps, Run(s, steps[..n]).people.profiles[q].uid) == q
    decreases |steps|
  {
    var uid := Run(s, steps[..n]).people.profiles[q].uid;
    if p :| p in s.people.profiles && s.people.profiles[p].uid == uid {
      KeepsItsKey(s, steps[..n], p, q);
    } else {
      assert steps[..n] != [];
      assert steps[..n][1..] == steps[1..][..n - 1];
      NextKeepsInv(s, steps[0]);
      KeyOverIsTheKey(Next(s, steps[0]), steps[1..], n - 1, q);
    }
  }

  ghost predicate RanksRun(rank: Uid -> nat, s: Tables, steps: seq<Step>) {
    forall n: nat | n <= |steps| :: LockPlans.Ranked(rank, Run(s, steps[..n]))
  }

  /** One ranking of identities fits every state of a run: an identity never has a second profile key. */
  lemma RankOfARun(s: Tables, steps: seq<Step>)
    requires Inv(s)
    ensures exists rank :: RanksRun(rank, s, steps)
  {
    var rank := (uid: Uid) => KeyOver(s, steps, uid);
    forall n: nat | n <= |steps| ensures LockPlans.Ranked(rank, Run(s, steps[..n])) {
      forall q | q in Run(s, steps[..n]).people.profiles
        ensures rank(Run(s, steps[..n]).people.profiles[q].uid) == q
      {
        KeyOverIsTheKey(s, steps, n, q);
      }
    }
    assert RanksRun(rank, s, steps);
  }

  ghost predicate Detached(s: Tables, w: WalletId) {
    w in s.wallets.owners && s.wallets.owners[w].None?
  }

  /** The lines of one wallet. */
  function LinesOf(ledger: seq<Entry>, w: WalletId): seq<Entry> {
    if ledger == [] then []
    else
      var last := ledger[|ledger| - 1];
      LinesOf(ledger[..|ledger| - 1], w) + (if last.wallet == w then [last] else [])
  }

  lemma LinesAppended(ledger: seq<Entry>, line: Entry, w: WalletId)
    ensures LinesOf(ledger + [line], w) == LinesOf(ledger, w) + (if line.wallet == w then [line] else [])
  {
    assert (ledger + [line])[..|ledger|] == ledger;
  }

  /** Nothing about the wallet's accounting or owner differs between the two states. */
  ghost predicate Frozen(before: Tables, after: Tables, w: WalletId) {
    && Detached(after, w)
    && LinesOf(after.ledger, w) == LinesOf(before.ledger, w)
    && (forall k: RequestKey | k.0 == w :: k in after.spending.unlocks <==> k in before.spending.unlocks)
    && (forall k: RequestKey | k.0 == w :: k in after.spending.cancellations <==> k in before.spending.cancellations)
  }

  lemma DetachedSpend(s: Tables, r: Request, w: WalletId)
    requires Inv(s) && Detached(s, w)
    ensures Frozen(s, After(s, UnlockEpisode(s, r)), w)
  {
    if Refused(s, r).Some? {
    } else {
      WalletIssued(s, r.who.id, r.wallet);
      AssessDebitIff(s, r);
      assert WalletFor(s, r.who.id, r.wallet) != w;
      var line := Entry(WalletFor(s, r.who.id, r.wallet), r.reference, Unlock, 0 - r.terms.price, s.clock);
      LinesAppended(s.ledger, line, w);
      var charge := Assess(s, r);
      if charge.Denied? || charge.Replay? {
      } else if charge.NoCharge? {
      } else {
      }
    }
  }

  lemma DetachedResolve(s: Tables, r: Request, w: WalletId)
    requires Inv(s) && Detached(s, w)
    ensures Frozen(s, After(s, ResolveUnlock(s, r)), w)
  {
    if Unresolvable(s, r).Some? {
    } else {
      WalletIssued(s, r.who.id, r.wallet);
    }
  }

  lemma DetachedDeliver(s: Tables, e: Event, receipt: Uuid, w: WalletId)
    requires Detached(s, w)
    ensures Frozen(s, After(s, Fulfill(s, e, receipt)), w)
  {
    FulfillMovesCoinsIff(s, e, receipt);
    FulfillTouchesNoWallet(s, e, receipt);
    if Creditable(s, e, receipt) {
      FulfillCreditsWorth(s, e, receipt);
      LinesAppended(s.ledger, Entry(s.store.identities[e.owner.id], receipt, Purchase, Worth(s, e), s.clock), w);
    }
  }

  lemma FulfillTouchesNoWallet(s: Tables, e: Event, receipt: Uuid)
    ensures After(s, Fulfill(s, e, receipt)).wallets == s.wallets
    ensures After(s, Fulfill(s, e, receipt)).spending == s.spending
  {
  }

  lemma DetachedDeletion(s: Tables, uid: Uid, authenticatedAt: Option<Instant>, w: WalletId)
    requires Detached(s, w)
    ensures Frozen(s, After(s, RequestDeletion(s, uid, authenticatedAt)), w)
  {
  }

  lemma DetachedIdentify(s: Tables, step: Step, w: WalletId)
    requires step.Identify? && Detached(s, w)
    ensures Frozen(s, Next(s, step), w)
  {
  }

  lemma DetachedCorrect(s: Tables, step: Step, w: WalletId)
    requires step.Correct? && Detached(s, w)
    ensures Frozen(s, Next(s, step), w)
  {
    LinesAppended(s.ledger, Entry(step.wallet, step.reference, Correction, step.amount, s.clock), w);
  }

  lemma DetachedStep(s: Tables, step: Step, w: WalletId)
    requires Inv(s) && Detached(s, w)
    ensures Frozen(s, Next(s, step), w)
  {
    if step.Spend? {
      DetachedSpend(s, step.request, w);
    } else if step.Resolve? {
      DetachedResolve(s, step.request, w);
    } else if step.Deliver? {
      DetachedDeliver(s, step.event, step.receipt, w);
    } else if step.DeleteAccount? {
      DetachedDeletion(s, step.uid, step.authenticatedAt, w);
    } else if step.Identify? {
      DetachedIdentify(s, step, w);
    } else if step.Correct? {
      DetachedCorrect(s, step, w);
    } else {
      OthersKeepWallets(s, step);
      OnlySpendingStepsTouchReceipts(s, step);
      OnlyMoneyStepsTouchLedger(s, step);
    }
  }

  lemma OthersKeepWallets(s: Tables, step: Step)
    requires !step.Spend? && !step.Resolve? && !step.DeleteAccount? && !step.Identify?
    ensures Next(s, step).wallets == s.wallets
  {
  }

  /** A detached wallet never gains a ledger line, a receipt, a cancellation or an owner. */
  lemma {:induction false} DetachedIsFrozen(s: Tables, steps: seq<Step>, w: WalletId)
    requires Inv(s) && Detached(s, w)
    ensures Frozen(s, Run(s, steps), w)
    decreases |steps|
  {
    if steps != [] {
      NextKeepsInv(s, steps[0]);
      DetachedStep(s, steps[0], w);
      DetachedIsFrozen(Next(s, steps[0]), steps[1..], w);
    }
  }

  // Reward intents

  /** The step grants some intent with this provider transaction. */
  ghost predicate GrantsBy(s: Tables, step: Step, transaction: string) {
    step.Reward? && step.callback.transaction == transaction && Judge(s, step.callback).GrantNow?
  }

  /** Later, the same intent: its terms stand, a grant stands, and expiry bars a grant. */
  ghost predicate Follows(before: Intent, clock: Instant, after: Intent) {
    && after.(granted := None) == before.(granted := None)
    && (before.granted.Some? ==> after.granted == before.granted)
    && (before.granted.None? && before.expiresAt <= clock ==> after.granted.None?)
  }

  /** The step deletes this account or this episode. */
  ghost predicate Ends(s: Tables, step: Step, uid: Uid, episode: EpisodeId) {
    || (step.DeleteAccount? && step.uid == uid && RequestDeletion(s, step.uid, step.authenticatedAt).Done?)
    || (step.RemoveEpisode? && step.episodeId == episode)
  }

  /** No step of the run does. */
  ghost predicate Spares(s: Tables, steps: seq<Step>, uid: Uid, episode: EpisodeId)
    decreases |steps|
  {
    steps == [] || (!Ends(s, steps[0], uid, episode) && Spares(Next(s, steps[0]), steps[1..], uid, episode))
  }

  /** The intent is there, of an account with this identity and for this episode. */
  ghost predicate There(s: Tables, c: Uuid, uid: Uid, episode: EpisodeId) {
    && c in s.ads.intents
    && s.ads.intents[c].profile in s.people.profiles && s.people.profiles[s.ads.intents[c].profile].uid == uid
    && s.ads.intents[c].episode == episode && episode in s.catalog.episodes
  }

  /** Until its own account or episode is deleted an intent is followed by itself. */
  lemma IntentsAreKept(s: Tables, step: Step, c: Uuid, uid: Uid, episode: EpisodeId)
    requires PeopleOk(s.people) && There(s, c, uid, episode) && !Ends(s, step, uid, episode)
    ensures There(Next(s, step), c, uid, episode) && Follows(s.ads.intents[c], s.clock, Next(s, step).ads.intents[c])
  {
    if step.Reward? {
      RewardKeepsIntents(s, step.callback, c);
    } else if step.AskReward? {
      AskedIntentsAreKept(s, step, c);
    } else if step.DeleteAccount? {
      OtherAccountsKeepIntents(s, step.uid, step.authenticatedAt, c, uid);
    } else if step.RemoveEpisode? {
    } else {
      OthersKeepIntents(s, step);
      OthersKeepPlaces(s, step, s.ads.intents[c].profile, episode);
    }
  }

  lemma RewardKeepsIntents(s: Tables, callback: Callback, c: Uuid)
    requires c in s.ads.intents
    ensures var after := After(s, GrantReward(s, callback));
            && c in after.ads.intents && Follows(s.ads.intents[c], s.clock, after.ads.intents[c])
            && after.people == s.people && after.catalog == s.catalog
  {
    if Judge(s, callback).GrantNow? {
    } else {
    }
  }

  lemma OtherAccountsKeepIntents(s: Tables, deleted: Uid, authenticatedAt: Option<Instant>, c: Uuid, uid: Uid)
    requires c in s.ads.intents && s.ads.intents[c].profile in s.people.profiles
    requires s.people.profiles[s.ads.intents[c].profile].uid == uid
    requires deleted != uid || RequestDeletion(s, deleted, authenticatedAt).Raised?
    ensures var after := After(s, RequestDeletion(s, deleted, authenticatedAt));
            && c in after.ads.intents && after.ads.intents[c] == s.ads.intents[c] && after.catalog == s.catalog
            && s.ads.intents[c].profile in after.people.profiles
            && after.people.profiles[s.ads.intents[c].profile].uid == uid
  {
  }

  lemma AskedIntentsAreKept(s: Tables, step: Step, c: Uuid)
    requires step.AskReward? && c in s.ads.intents
    ensures c in Next(s, step).ads.intents && Next(s, step).ads.intents[c] == s.ads.intents[c]
    ensures Next(s, step).people == s.people && Next(s, step).catalog == s.catalog
  {
    var result := CreateIntent(s, step.who, step.episodeId, step.requestId, step.expected, step.custom, step.user);
    if result.Raised? || !result.value.1 {
    } else {
    }
  }

  predicate OnIntents(step: Step) { step.Reward? || step.AskReward? || step.DeleteAccount? || step.RemoveEpisode? }

  lemma OthersKeepIntents(s: Tables, step: Step)
    requires !OnIntents(step)
    ensures Next(s, step).ads == s.ads
  {
  }

  lemma OthersKeepPlaces(s: Tables, step: Step, p: ProfileId, episode: EpisodeId)
    requires !OnIntents(step) && p in s.people.profiles && episode in s.catalog.episodes
    requires PeopleOk(s.people)
    ensures p in Next(s, step).people.profiles && Next(s, step).people.profiles[p].uid == s.people.profiles[p].uid
    ensures episode in Next(s, step).catalog.episodes
  {
    if step.SignIn? || step.Consent? {
    } else {
      OthersKeepPeople(s, step);
    }
  }

  /** Granted is absorbing, and expired is too, until the intent's own account or episode is deleted. */
  lemma {:induction false} RewardStatusIsAbsorbing(s: Tables, steps: seq<Step>, c: Uuid, uid: Uid, episode: EpisodeId)
    requires Inv(s) && There(s, c, uid, episode) && Spares(s, steps, uid, episode)
    ensures There(Run(s, steps), c, uid, episode)
    ensures Follows(s.ads.intents[c], s.clock, Run(s, steps).ads.intents[c])
    decreases |steps|
  {
    if steps != [] {
      ClockNeverRunsBack(s, steps[0]);
      NextKeepsInv(s, steps[0]);
      IntentsAreKept(s, steps[0], c, uid, episode);
      RewardStatusIsAbsorbing(Next(s, steps[0]), steps[1..], c, uid, episode);
    }
  }

  lemma {:induction false} RunKeepsClock(s: Tables, steps: seq<Step>)
    ensures s.clock <= Run(s, steps).clock
    decreases |steps|
  {
    if steps != [] {
      ClockNeverRunsBack(s, steps[0]);
      RunKeepsClock(Next(s, steps[0]), steps[1..]);
    }
  }

  /** The intent's account is told this status. */
  ghost predicate Tells(s: Tables, c: Uuid, status: RewardStatus) {
    && c in s.ads.intents && s.ads.intents[c].profile in s.people.profiles
    && s.ads.intents[c].episode in s.catalog.episodes
    && StatusOf(s, c) == status
  }

  lemma FollowedStatusStays(s: Tables, later: Tables, c: Uuid, status: RewardStatus)
    requires Tells(s, c, status) && (status.StatusGranted? || status.StatusExpired?)
    requires AdsOk(later.ads, later.people, later.catalog) && s.clock <= later.clock
    requires c in later.ads.intents && Follows(s.ads.intents[c], s.clock, later.ads.intents[c])
    ensures Tells(later, c, status)
  {
  }

  /** What an account is told stays true: granted stays granted and expired stays expired, until its own
      account or episode is deleted. */
  lemma ToldStatusStays(s: Tables, steps: seq<Step>, c: Uuid, status: RewardStatus, uid: Uid, episode: EpisodeId)
    requires Inv(s) && There(s, c, uid, episode) && Spares(s, steps, uid, episode)
    requires Tells(s, c, status) && (status.StatusGranted? || status.StatusExpired?)
    ensures Tells(Run(s, steps), c, status)
  {
    RewardStatusIsAbsorbing(s, steps, c, uid, episode);
    RunKeepsClock(s, steps);
    RunKeepsInv(s, steps);
    FollowedStatusStays(s, Run(s, steps), c, status);
  }

  /** A status of pending is exactly the promise that a genuine, timely callback with a new provider
      transaction would be granted now. */
  lemma PendingIffGrantable(s: Tables, c: Callback)
    requires Inv(s) && c.custom in s.ads.intents && !TransactionUsed(s, c.transaction)
    requires var intent := s.ads.intents[c.custom];
             && c.user == intent.user && c.adUnit == UnitName(intent.adUnit)
             && intent.createdAt - EARLY_TOLERANCE <= c.timestamp < intent.expiresAt
             && c.timestamp <= s.clock + CLOCK_SKEW
    ensures StatusOf(s, c.custom) == StatusPending <==> Judge(s, c).GrantNow?
  {
    SourceCheckNeverFires(s, c.custom);
  }

  // An intent is granted at most once

  ghost function GrantingIntent(c: Uuid): Deed {
    (s: Tables, step: Step) => step.Reward? && step.callback.custom == c && Judge(s, step.callback).GrantNow?
  }

  predicate Draws(step: Step, c: Uuid) { step.AskReward? && step.custom == c }

  /** The run draws this identifier for a new intent at most once. */
  predicate DrawnOnce(steps: seq<Step>, c: Uuid, allowed: bool)
    decreases |steps|
  {
    || steps == []
    || (if Draws(steps[0], c) then allowed && DrawnOnce(steps[1..], c, false) else DrawnOnce(steps[1..], c, allowed))
  }

  /** The intent can be granted no more: it was granted, or it is gone. */
  ghost predicate Spent(s: Tables, c: Uuid) {
    c !in s.ads.intents || s.ads.intents[c].granted.Some?
  }

  lemma SpentStaysSpent(s: Tables, step: Step, c: Uuid)
    requires !Draws(step, c)
    ensures Spent(s, c) ==> Spent(Next(s, step), c)
    ensures c !in s.ads.intents ==> c !in Next(s, step).ads.intents
    ensures GrantingIntent(c)(s, step) ==> !Spent(s, c) && Spent(Next(s, step), c)
  {
    if step.Reward? {
      RewardSpends(s, step.callback, c);
    } else if step.AskReward? {
      AskedIsNew(s, step, c);
    } else if OnIntents(step) {
    } else {
      OthersKeepIntents(s, step);
    }
  }

  lemma RewardSpends(s: Tables, callback: Callback, c: Uuid)
    ensures var after := After(s, GrantReward(s, callback));
            && (Spent(s, c) ==> Spent(after, c)) && (c !in s.ads.intents ==> c !in after.ads.intents)
            && (callback.custom == c && Judge(s, callback).GrantNow? ==> !Spent(s, c) && Spent(after, c))
  {
    if Judge(s, callback).GrantNow? {
    } else {
    }
  }

  lemma AskedIsNew(s: Tables, step: Step, c: Uuid)
    requires step.AskReward? && step.custom != c
    ensures c in Next(s, step).ads.intents <==> c in s.ads.intents
    ensures c in s.ads.intents ==> Next(s, step).ads.intents[c] == s.ads.intents[c]
  {
    var result := CreateIntent(s, step.who, step.episodeId, step.requestId, step.expected, step.custom, step.user);
    if result.Raised? || !result.value.1 {
    } else {
    }
  }

  /** Over any run, deletions included, no intent is granted twice. An identifier is one intent: it is
      drawn at most once. */
  lemma {:induction false} EachIntentGrantedOnce(s: Tables, steps: seq<Step>, c: Uuid)
    requires DrawnOnce(steps, c, c !in s.ads.intents)
    ensures Count(s, steps, GrantingIntent(c)) <= 1
    decreases |steps|
  {
    if steps != [] {
      if Draws(steps[0], c) {
        OnceDrawnGrantedOnce(Next(s, steps[0]), steps[1..], c);
      } else {
        SpentStaysSpent(s, steps[0], c);
        if c in s.ads.intents {
          OnceDrawnGrantedOnce(s, steps, c);
        } else {
          EachIntentGrantedOnce(Next(s, steps[0]), steps[1..], c);
        }
      }
    }
  }

  lemma {:induction false} OnceDrawnGrantedOnce(s: Tables, steps: seq<Step>, c: Uuid)
    requires DrawnOnce(steps, c, false)
    ensures Count(s, steps, GrantingIntent(c)) <= 1
    ensures Spent(s, c) ==> Count(s, steps, GrantingIntent(c)) == 0
    decreases |steps|
  {
    if steps != [] {
      SpentStaysSpent(s, steps[0], c);
      OnceDrawnGrantedOnce(Next(s, steps[0]), steps[1..], c);
    }
  }

  // A provider transaction grants again only after it was forgotten

  ghost function Granting(transaction: string): Deed { (s, step) => GrantsBy(s, step, transaction) }

  /** The step makes the database forget that this provider transaction granted an intent. */
  ghost predicate Forgets(s: Tables, step: Step, transaction: string) {
    TransactionUsed(s, transaction) && !TransactionUsed(Next(s, step), transaction)
  }

  ghost function Forgetting(transaction: string): Deed { (s, step) => Forgets(s, step, transaction) }

  lemma GrantUses(s: Tables, step: Step, transaction: string)
    requires GrantsBy(s, step, transaction)
    ensures !TransactionUsed(s, transaction) && TransactionUsed(Next(s, step), transaction)
  {
    assert GrantedBy(GrantReward(s, step.callback).tables.ads.intents, step.callback.custom, transaction);
  }

  /** Over any run a provider transaction grants at most once more than it was forgotten. */
  lemma {:induction false} GrantsAtMostOncePerForgetting(s: Tables, steps: seq<Step>, transaction: string)
    ensures Count(s, steps, Granting(transaction)) <= 1 + Count(s, steps, Forgetting(transaction))
    ensures TransactionUsed(s, transaction) ==>
              Count(s, steps, Granting(transaction)) <= Count(s, steps, Forgetting(transaction))
    decreases |steps|
  {
    if steps != [] {
      GrantsAtMostOncePerForgetting(Next(s, steps[0]), steps[1..], transaction);
      if GrantsBy(s, steps[0], transaction) {
        GrantUses(s, steps[0], transaction);
      }
    }
  }

  /** A provider transaction is forgotten exactly by the deletion of the account, or of the episode, of
      the intent it granted. */
  lemma ForgottenIff(s: Tables, step: Step, c: Uuid, transaction: string, uid: Uid, episode: EpisodeId)
    requires Inv(s) && GrantedBy(s.ads.intents, c, transaction) && There(s, c, uid, episode)
    ensures Forgets(s, step, transaction) <==> Ends(s, step, uid, episode)
  {
    assert TransactionUsed(s, transaction);
    if Ends(s, step, uid, episode) {
      EndForgets(s, step, c, transaction, uid, episode);
    } else {
      IntentsAreKept(s, step, c, uid, episode);
      assert GrantedBy(Next(s, step).ads.intents, c, transaction);
    }
  }

  /** Once the one intent granted by a transaction is gone the transaction is not used. */
  lemma OnlyUseGone(before: Ads, after: Ads, people: People, catalog: Catalog, c: Uuid, transaction: string)
    requires AdsOk(before, people, catalog) && GrantedBy(before.intents, c, transaction) && c !in after.intents
    requires forall d :: d in after.intents ==> d in before.intents && after.intents[d] == before.intents[d]
    ensures forall d :: !GrantedBy(after.intents, d, transaction)
  {
    forall d ensures !GrantedBy(after.intents, d, transaction) {
      if GrantedBy(after.intents, d, transaction) {
        assert GrantedBy(before.intents, d, transaction);
        assert false;
      }
    }
  }

  lemma AccountForgets(
    s: Tables, c: Uuid, transaction: string, uid: Uid, authenticatedAt: Option<Instant>, episode: EpisodeId)
    requires AdsOk(s.ads, s.people, s.catalog) && GrantedBy(s.ads.intents, c, transaction) && There(s, c, uid, episode)
    requires RequestDeletion(s, uid, authenticatedAt).Done?
    ensures !TransactionUsed(RequestDeletion(s, uid, authenticatedAt).tables, transaction)
  {
    OnlyUseGone(s.ads, RequestDeletion(s, uid, authenticatedAt).tables.ads, s.people, s.catalog, c, transaction);
  }

  lemma EpisodeForgets(s: Tables, c: Uuid, transaction: string, uid: Uid, episode: EpisodeId)
    requires AdsOk(s.ads, s.people, s.catalog) && GrantedBy(s.ads.intents, c, transaction) && There(s, c, uid, episode)
    ensures !TransactionUsed(DeleteEpisode(s, episode), transaction)
  {
    OnlyUseGone(s.ads, DeleteEpisode(s, episode).ads, s.people, s.catalog, c, transaction);
  }

  lemma EndForgets(s: Tables, step: Step, c: Uuid, transaction: string, uid: Uid, episode: EpisodeId)
    requires AdsOk(s.ads, s.people, s.catalog) && GrantedBy(s.ads.intents, c, transaction) && There(s, c, uid, episode)
    requires Ends(s, step, uid, episode)
    ensures !TransactionUsed(Next(s, step), transaction)
  {
    if step.DeleteAccount? {
      AccountForgets(s, c, transaction, uid, step.authenticatedAt, episode);
      assert Next(s, step) == RequestDeletion(s, uid, step.authenticatedAt).tables;
    } else {
      EpisodeForgets(s, c, transaction, uid, episode);
      assert Next(s, step) == DeleteEpisode(s, episode);
    }
  }

  lemma GrantStands(s: Tables, step: Step, c: Uuid, transaction: string, uid: Uid, episode: EpisodeId)
    requires PeopleOk(s.people) && GrantedBy(s.ads.intents, c, transaction)
    requires There(s, c, uid, episode) && !Ends(s, step, uid, episode)
    ensures GrantedBy(Next(s, step).ads.intents, c, transaction) && There(Next(s, step), c, uid, episode)
    ensures !GrantsBy(s, step, transaction)
  {
    assert TransactionUsed(s, transaction);
    IntentsAreKept(s, step, c, uid, episode);
  }

  /** While the account and the episode of the intent it granted are there, a provider transaction grants
      nothing else. */
  lemma {:induction false} NoSecondGrant(
    s: Tables, steps: seq<Step>, c: Uuid, transaction: string, uid: Uid, episode: EpisodeId)
    requires Inv(s) && GrantedBy(s.ads.intents, c, transaction)
    requires There(s, c, uid, episode) && Spares(s, steps, uid, episode)
    ensures Count(s, steps, Granting(transaction)) == 0
    decreases |steps|
  {
    if steps != [] {
      NextKeepsInv(s, steps[0]);
      GrantStands(s, steps[0], c, transaction, uid, episode);
      NoSecondGrant(Next(s, steps[0]), steps[1..], c, transaction, uid, episode);
    }
  }

  lemma ClockNeverRunsBack(s: Tables, step: Step)
    ensures s.clock <= Next(s, step).clock
  {
  }

  // Offered packs

  lemma StepEvolvesPacks(s: Tables, step: Step)
    requires Inv(s)
    ensures Evolved(s.packs, s.clock, Next(s, step).packs) && s.clock <= Next(s, step).clock
  {
    ClockNeverRunsBack(s, step);
    match step
    case CreatePack(product, base, bonus, sortOrder, display, startsAt, endsAt, active) =>
      AddPackEvolves(s.packs, product, base, bonus, sortOrder, display, startsAt, endsAt, active, s.clock);
    case ChangePack(id, edited) => EditPackEvolves(s.packs, id, edited, s.clock);
    case _ => OthersKeepPacks(s, step);
  }

  lemma OthersKeepPacks(s: Tables, step: Step)
    requires !step.CreatePack? && !step.ChangePack?
    ensures Next(s, step).packs == s.packs
  {
  }

  lemma {:induction false} RunEvolvesPacks(s: Tables, steps: seq<Step>)
    requires Inv(s)
    ensures Evolved(s.packs, s.clock, Run(s, steps).packs) && s.clock <= Run(s, steps).clock
    decreases |steps|
  {
    if steps != [] {
      var after := Next(s, steps[0]);
      NextKeepsInv(s, steps[0]);
      StepEvolvesPacks(s, steps[0]);
      RunEvolvesPacks(after, steps[1..]);
      EvolvedIsTransitive(s.packs, s.clock, after.packs, after.clock, Run(s, steps).packs);
    }
  }

  /** In any run after an offer was shown, a payment made within the honour window is worth at least the
      coins shown. The product is the one offered: its registry entry has not changed. */
  lemma OfferIsHonored(s: Tables, steps: seq<Step>, product: Product, purchasedAtMs: nat)
    requires Inv(s) && s.clock <= purchasedAtMs * 1000 < s.clock + HONOR_WINDOW
    ensures var offer := OfferFor(s.packs, product, s.clock);
            var later := Run(s, steps);
            offer.Some? ==> offer.value.coins <= CreditedCoins(later.packs, product, purchasedAtMs, later.clock)
  {
    RunEvolvesPacks(s, steps);
    ShownCoinsAreCredited(s.packs, s.clock, Run(s, steps).packs, product, purchasedAtMs, Run(s, steps).clock);
  }

  /** What was shown reaches the buyer: while the registry stands, a creditable delivery of such a payment
      puts at least the shown coins on the ledger, in the wallet of the owner it names. */
  lemma ShownCoinsReachTheWallet(s: Tables, steps: seq<Step>, e: Event, receipt: Uuid, product: Product)
    requires Inv(s) && s.clock <= e.purchasedAtMs * 1000 < s.clock + HONOR_WINDOW
    requires s.settings.registry.Some? && Run(s, steps).settings.registry == s.settings.registry
    requires Listed(s.settings.registry.value, e.app, e.product) == Some(product)
    requires Creditable(Run(s, steps), e, receipt)
    ensures var later := Run(s, steps);
            var ledger := Fulfill(later, e, receipt).tables.ledger;
            var offer := OfferFor(s.packs, product, s.clock);
            && Fulfill(later, e, receipt).Done?
            && |ledger| == |later.ledger| + 1 && ledger[..|later.ledger|] == later.ledger
            && ledger[|later.ledger|].wallet == later.store.identities[e.owner.id]
            && (offer.Some? ==> offer.value.coins <= ledger[|later.ledger|].amount)
  {
    FulfillCreditsWorth(Run(s, steps), e, receipt);
    OfferIsHonored(s, steps, product, e.purchasedAtMs);
  }

  /** A payment that already lies in the past is worth the same whenever it is processed. */
  lemma PastPaymentIsFixed(s: Tables, steps: seq<Step>, product: Product, purchasedAtMs: nat)
    requires Inv(s) && purchasedAtMs * 1000 < s.clock
    ensures CreditedCoins(s.packs, product, purchasedAtMs, s.clock) ==
            CreditedCoins(Run(s, steps).packs, product, purchasedAtMs, Run(s, steps).clock)
  {
    RunEvolvesPacks(s, steps);
    PastPaymentIsSettled(s.packs, s.clock, Run(s, steps).packs, Run(s, steps).clock, product, purchasedAtMs);
  }
}
