/** The transactions as they are written: locks are taken one at a time along the global order, rows are
    inserted one at a time, and raising restores the rows as they were. Each method is proved to do what
    the protocol's function for it says. */
module Database {
  import opened Wrappers
  import opened Registry
  import opened Packs
  import opened Policy
  import opened Tables
  import opened Purchases
  import opened Unlocks
  import opened Rewards
  import opened Accounts
  import opened Locks
  import opened LockPlans

  class Database {
    var rows: Tables
    ghost const rank: Rank

    constructor (rows: Tables, ghost rank: Rank)
      ensures this.rows == rows && this.rank == rank
    {
      this.rows, this.rank := rows, rank;
    }

    /** A further lock of an account, an episode or a later family can still be taken. */
    ghost predicate Below(held: seq<Lock>, family: nat) {
      Orderly(rank, held) && forall lock :: lock in held ==> PlaceOf(rank, lock).family < family
    }

    /** Locks an account; the flag says the profile is current. */
    method LockCurrentProfile(who: ProfileRef, held: seq<Lock>) returns (current: bool, locks: seq<Lock>)
      requires Orderly(rank, held) && forall lock :: lock in held ==> Before(rank, lock, AccountLock(who.uid))
      ensures current <==> Current(rows, who)
      ensures Below(locks, 7) && locks == held + AccountLocks(who)
    {
      locks := Acquired(rank, held, AccountLock(who.uid));
      locks := Acquired(rank, locks, ProfileRow(who.uid, who.id));
      current := who.id in rows.people.profiles && rows.people.profiles[who.id].uid == who.uid
                 && who.uid !in rows.people.deletions;
    }

    /** The account's wallet, created if it has none. None: the drawn identifier is taken. */
    method GetOrCreateWallet(p: ProfileId, issued: WalletId) returns (wallet: Option<WalletId>)
      modifies this
      ensures wallet.Some? <==> WalletReady(old(rows), p, issued)
      ensures wallet.Some? ==>
          wallet.value == WalletFor(old(rows), p, issued) && rows == WithWallet(old(rows), p, issued)
      ensures wallet.None? ==> rows == old(rows)
    {
      if p in rows.wallets.walletOf {
        return Some(rows.wallets.walletOf[p]);
      }
      if issued in rows.wallets.owners {
        return None;
      }
      rows := rows.(wallets := Wallets(rows.wallets.owners[issued := Some(p)], rows.wallets.walletOf[p := issued]));
      return Some(issued);
    }

    /** Sums the wallet's lines. */
    method WalletBalance(w: WalletId) returns (total: int)
      ensures total == Balance(rows.ledger, w)
    {
      total := 0;
      for i := 0 to |rows.ledger|
        invariant total == Balance(rows.ledger[..i], w)
      {
        assert rows.ledger[..i + 1][..i] == rows.ledger[..i];
        if rows.ledger[i].wallet == w {
          total := total + rows.ledger[i].amount;
        }
      }
      assert rows.ledger[..|rows.ledger|] == rows.ledger;
    }

    /** Inserts a ledger line, subject to the table's constraints and its insert trigger. */
    method InsertLine(w: WalletId, reference: Uuid, kind: Kind, amount: int) returns (inserted: bool)
      modifies this
      ensures inserted <==> Postable(old(rows), w, reference, kind, amount)
      ensures rows == if inserted then Posted(old(rows), w, reference, kind, amount) else old(rows)
    {
      var balance := WalletBalance(w);
      inserted := Admissible(kind, amount) && Unused(rows.ledger, reference)
        && w in rows.wallets.owners && rows.wallets.owners[w].Some?
        && 0 <= balance + amount <= MAX_BALANCE_COINS;
      if inserted {
        rows := rows.(ledger := rows.ledger + [Entry(w, reference, kind, amount, rows.clock)]);
      }
    }

    // Deliveries

    /** Binds an app to its application the first time, and refuses any other application later. */
    method ResolveApplication(e: Event, held: seq<Lock>) returns (application: Option<ApplicationId>, locks: seq<Lock>)
      requires rows.settings.registry.Some?
      requires held == [EventLock(KeyOf(e))]
      modifies this
      ensures application == Application(old(rows), e)
      ensures rows == old(rows).(store := old(rows).store.(
                bindings :=
                  if application.Some? then old(rows).store.bindings[e.app := application.value]
                  else old(rows).store.bindings))
      ensures Orderly(rank, locks) && locks == held + ApplicationLocks(old(rows), e)
    {
      locks := held;
      var scope := Scope(rows.settings.registry.value, e.app);
      if scope.None? {
        return None, locks;
      }
      locks := Acquired(rank, locks, AppLock(e.app));
      locks := Acquired(rank, locks, ApplicationLock(scope.value.application));
      if e.app !in rows.store.bindings {
        if scope.value.application in rows.store.bindings.Values {
          return None, locks;
        }
        rows := rows.(store := rows.store.(bindings := rows.store.bindings[e.app := scope.value.application]));
      }
      if rows.store.bindings[e.app] != scope.value.application {
        return None, locks;
      }
      assert rows.store.bindings == old(rows).store.bindings[e.app := scope.value.application];
      return Some(scope.value.application), locks;
    }

    /** Locks the owner of a delivery and credits it. None: the line was rejected. The flag says there is
        a current owner. */
    method CreditOwner(e: Event, key: TxKey, product: Product, receipt: Uuid, held: seq<Lock>)
      returns (live: bool, decision: Option<Decision>, locks: seq<Lock>)
      requires rows.settings.registry.Some? && Listed(rows.settings.registry.value, e.app, e.product) == Some(product)
      requires Below(held, 5)
      modifies this
      ensures Orderly(rank, locks) && locks == held + CreditLocks(old(rows), e.owner)
      ensures live <==> LiveOwner(old(rows), e.owner)
      ensures !live ==> rows == old(rows)
      ensures live ==>
        var c := CreditFor(old(rows), e, receipt);
        && (decision.Some? <==> c.postable)
        && (decision.Some? ==>
              && decision.value
                 == Credited(ClaimOf(e, key), receipt, c.identity, |old(rows).ledger|, c.coins, c.product)
              && rows == Posted(old(rows), c.wallet, receipt, Purchase, c.coins))
    {
      locks := held;
      if e.owner.Malformed? || e.owner.id !in rows.store.identities {
        return false, None, locks;
      }
      var w := rows.store.identities[e.owner.id];
      if w !in rows.wallets.owners || rows.wallets.owners[w].None?
         || rows.wallets.owners[w].value !in rows.people.profiles
      {
        return false, None, locks;
      }
      var p := rows.wallets.owners[w].value;
      var who := ProfileRef(p, rows.people.profiles[p].uid);
      live, locks := LockCurrentProfile(who, locks);
      if !live {
        return false, None, locks;
      }
      locks := Acquired(rank, locks, WalletRow(who.uid, w));
      var coins := CreditedCoins(rows.packs, product, e.purchasedAtMs, rows.clock);
      var entry := |rows.ledger|;
      var inserted := InsertLine(w, receipt, Purchase, coins);
      if !inserted {
        return true, None, locks;
      }
      return true, Some(Credited(ClaimOf(e, key), receipt, e.owner.id, entry, coins, product)), locks;
    }

    /** Creates the decision of a transaction seen for the first time. None: the credit line was rejected. */
    method Decide(e: Event, key: TxKey, conflict: bool, receipt: Uuid, held: seq<Lock>)
      returns (decision: Option<Decision>, locks: seq<Lock>)
      requires rows.settings.registry.Some? && Below(held, 5)
      modifies this
      ensures Orderly(rank, locks) && locks == held + DecideLocks(old(rows), e, conflict)
      ensures var refusal := Refusal(old(rows), e, conflict);
              if refusal.Some?
              then decision == Some(Quarantined(ClaimOf(e, key), refusal.value)) && rows == old(rows)
              else
                var c := CreditFor(old(rows), e, receipt);
                && (decision.Some? <==> c.postable)
                && (decision.Some? ==>
                      && decision.value
                         == Credited(ClaimOf(e, key), receipt, c.identity, |old(rows).ledger|, c.coins, c.product)
                      && rows == Posted(old(rows), c.wallet, receipt, Purchase, c.coins))
    {
      locks := held;
      var product := Listed(rows.settings.registry.value, e.app, e.product);
      if conflict {
        return Some(Quarantined(ClaimOf(e, key), EventConflict)), locks;
      }
      if product.None? || e.store != product.value.store || e.environment != product.value.environment {
        return Some(Quarantined(ClaimOf(e, key), UnsupportedScope)), locks;
      }
      if e.kind.Cancellation? || e.kind.Refund? {
        return Some(Quarantined(ClaimOf(e, key), RefundBeforeCredit)), locks;
      }
      if !e.kind.NonRenewingPurchase? {
        return Some(Quarantined(ClaimOf(e, key), UnsupportedEvent)), locks;
      }
      if !e.quantityValid {
        return Some(Quarantined(ClaimOf(e, key), InvalidQuantity)), locks;
      }
      if !e.identityValid {
        return Some(Quarantined(ClaimOf(e, key), IdentityConflict)), locks;
      }
      var live;
      live, decision, locks := CreditOwner(e, key, product.value, receipt, locks);
      if !live {
        return Some(Quarantined(ClaimOf(e, key), UnknownOrDeletedOwner)), locks;
      }
    }

    /** What a delivery gathers once its application is resolved. */
    ghost function GatheredFor(
      s: Tables, e: Event, application: Option<ApplicationId>, conflict: bool, receipt: Uuid): Facts
      requires s.settings.registry.Some?
    {
      var refusal := RefusalFor(s, e, application.Some?, conflict);
      Facts(application, conflict, refusal, if refusal.Some? then None else Some(CreditFor(s, e, receipt)))
    }

    /** The locks of a transaction's keys. */
    method LockTransaction(e: Event, application: Option<ApplicationId>, held: seq<Lock>) returns (locks: seq<Lock>)
      requires Below(held, 3)
      ensures Below(locks, 5) && locks == held + TransactionLocks(e, application)
    {
      locks := Acquired(rank, held, RawLock(TransactionOf(e)));
      if application.Some? {
        locks := Acquired(rank, locks, ResolvedLock(ResolvedKey(TransactionOf(e), application.value)));
      }
    }

    /** The decision of a delivery's transaction, existing or new. None: the credit line was rejected. */
    method SettleTransaction(
      e: Event, application: Option<ApplicationId>, conflict: bool, receipt: Uuid, held: seq<Lock>)
      returns (settled: Option<(TxKey, Decision)>, locks: seq<Lock>)
      requires rows.settings.registry.Some? && Below(held, 3)
      modifies this
      ensures Orderly(rank, locks) && locks == held + SettleLocks(old(rows), e, application, conflict)
      ensures var x := Settle(old(rows), e, receipt, GatheredFor(old(rows), e, application, conflict, receipt));
              && (settled.Some? <==> x.Some?)
              && (x.Some? ==>
                    && settled.value == (x.value.used, x.value.decision)
                    && rows == old(rows).(ledger := x.value.ledger))
    {
      locks := LockTransaction(e, application, held);
      var key := KeyFor(e, application);
      if RawKey(e) in rows.store.decisions {
        return Some((RawKey(e), rows.store.decisions[RawKey(e)])), locks;
      }
      if key in rows.store.decisions {
        return Some((key, rows.store.decisions[key])), locks;
      }
      if application.None? {
        return Some((key, Quarantined(ClaimOf(e, key), UnsupportedScope))), locks;
      }
      var decision;
      decision, locks := Decide(e, key, conflict, receipt, locks);
      if decision.None? {
        return None, locks;
      }
      return Some((key, decision.value)), locks;
    }

    method Fulfill(e: Event, receipt: Uuid) returns (r: Result<EventRow>, locks: seq<Lock>)
      modifies this
      ensures r == Purchases.Fulfill(old(rows), e, receipt)
      ensures rows == After(old(rows), r)
      ensures Orderly(rank, locks) && locks == FulfillLocks(old(rows), e)
    {
      locks := [];
      if !rows.settings.purchasesEnabled {
        return Raised(PurchaseUnavailable), locks;
      }
      var before := rows;
      locks := Acquired(rank, locks, EventLock(KeyOf(e)));
      if e in rows.store.events {
        return Done(rows.store.events[e], rows), locks;
      }
      if rows.settings.registry.None? {
        return Raised(Misconfigured), locks;
      }
      var conflict := Conflict(rows, e);
      var application;
      application, locks := ResolveApplication(e, locks);
      ghost var f := Gather(before, e, receipt);
      assert GatheredFor(rows, e, application, conflict, receipt) == f by {
        BindingsDoNotMatter(before, rows.store.bindings, e, application.Some?, conflict, receipt);
      }
      assert SettleLocks(rows, e, application, conflict) == SettleLocks(before, e, application, conflict) by {
        PlansIgnoreBindings(before, rows.store.bindings, e, application, conflict);
      }
      var settled;
      settled, locks := SettleTransaction(e, application, conflict, receipt, locks);
      if settled.None? {
        rows := before;
        return Raised(Integrity), locks;
      }
      var (used, decision) := settled.value;
      var (status, reason) := Report(e, decision, ClaimOf(e, KeyFor(e, application)), conflict);
      var row := EventRow(used, status, reason);
      rows := rows.(store := rows.store.(
        decisions := rows.store.decisions[used := decision],
        events := rows.store.events[e := row]));
      assert rows == Recorded(before, e, f, Settlement(used, decision, rows.ledger));
      return Done(row, rows), locks;
    }

    method PurchaseIdentity(who: ProfileRef, wallet: WalletId, identity: Uuid)
      returns (r: Result<WalletId>, locks: seq<Lock>)
      modifies this
      ensures r == Purchases.PurchaseIdentity(old(rows), who, wallet, identity)
      ensures rows == After(old(rows), r)
      ensures Orderly(rank, locks) && locks == IdentityLocks(old(rows), who, wallet)
    {
      locks := [];
      if !rows.settings.purchasesEnabled {
        return Raised(PurchaseUnavailable), locks;
      }
      if rows.settings.registry.None? {
        return Raised(Misconfigured), locks;
      }
      var before := rows;
      var current;
      current, locks := LockCurrentProfile(who, locks);
      if !current {
        return Raised(AuthenticationFailed), locks;
      }
      var created := GetOrCreateWallet(who.id, wallet);
      if created.None? {
        return Raised(Integrity), locks;
      }
      var w := created.value;
      locks := Acquired(rank, locks, WalletRow(who.uid, w));
      if w in rows.store.identities.Values {
        return Done(w, rows), locks;
      }
      if identity in rows.store.identities {
        rows := before;
        return Raised(Integrity), locks;
      }
      rows := rows.(store := rows.store.(identities := rows.store.identities[identity := w]));
      return Done(w, rows), locks;
    }

    // Spending

    /** Locks a series and then one of its episodes. */
    method LockEpisodeForAccess(id: EpisodeId, held: seq<Lock>) returns (episode: Option<Episode>, locks: seq<Lock>)
      requires Below(held, 7)
      ensures episode == if id in rows.catalog.episodes then Some(rows.catalog.episodes[id]) else None
      ensures Below(locks, 8) && locks == held + EpisodeLocks(rows, id)
    {
      locks := held;
      if id !in rows.catalog.episodes {
        return None, locks;
      }
      var found := rows.catalog.episodes[id];
      locks := Acquired(rank, locks, SeriesRow(found.series));
      locks := Acquired(rank, locks, EpisodeRow(found.series, id));
      return Some(found), locks;
    }

    /** Locks the account of a request and turns it away if it cannot go on. */
    method AdmitAccount(r: Request) returns (refused: Option<Error>, locks: seq<Lock>)
      ensures refused.Some? <==> TurnedAway(rows, r)
      ensures refused.Some? ==> refused == Refused(rows, r)
      ensures Below(locks, 7) && locks == AccountLocks(r.who)
    {
      var current;
      current, locks := LockCurrentProfile(r.who, []);
      if !current {
        return Some(AuthenticationFailed), locks;
      }
      if !rows.settings.spendingEnabled || IsCancelled(rows, r.who.id, r.id) {
        return Some(CoinUnavailable), locks;
      }
      var existing := Completion(rows, r.who.id, r.id);
      if existing.Some? && existing.value.terms != r.terms {
        return Some(CoinUnavailable), locks;
      }
      return None, locks;
    }

    /** Takes a request up to the locked wallet, or refuses it and restores the rows. */
    method AdmitUnlock(r: Request) returns (refused: Option<Error>, locks: seq<Lock>)
      modifies this
      ensures refused == Refused(old(rows), r)
      ensures rows == if refused.Some? then old(rows) else WithWallet(old(rows), r.who.id, r.wallet)
      ensures Orderly(rank, locks) && locks == UnlockLocks(old(rows), r)
    {
      refused, locks := AdmitAccount(r);
      if refused.Some? {
        return;
      }
      var found;
      found, locks := LockEpisodeForAccess(r.terms.episode, locks);
      if found.None? || !found.value.eligible {
        return Some(NotFound), locks;
      }
      var before := rows;
      var created := GetOrCreateWallet(r.who.id, r.wallet);
      if created.None? {
        return Some(Integrity), locks;
      }
      locks := Acquired(rank, locks, WalletRow(r.who.uid, created.value));
      // Rights may have expired while the wallet was awaited.
      if !r.stillEligible {
        rows := before;
        return Some(NotFound), locks;
      }
      return None, locks;
    }

    /** Inserts the debit and the coin entitlement. */
    method DebitAndGrant(r: Request, w: WalletId) returns (inserted: bool)
      modifies this
      ensures inserted <==> Postable(old(rows), w, r.reference, Unlock, 0 - r.terms.price)
      ensures rows ==
              if inserted
              then
                var posted := Posted(old(rows), w, r.reference, Unlock, 0 - r.terms.price);
                posted.(spending := posted.spending.(
                  entitlements := posted.spending.entitlements[(r.who.id, r.terms.episode) := Coins]))
              else old(rows)
    {
      inserted := InsertLine(w, r.reference, Unlock, 0 - r.terms.price);
      if inserted {
        rows := rows.(spending := rows.spending.(
          entitlements := rows.spending.entitlements[(r.who.id, r.terms.episode) := Coins]));
      }
    }

    /** What the account may do with the episode now. */
    function Access(r: Request): Access
      requires r.terms.episode in rows.catalog.episodes
      reads this
    {
      Authorize(r.terms.episode, rows.catalog.episodes[r.terms.episode], rows.settings.adsMode, r.stillEligible, true,
                Held(rows, r.who.id, r.terms.episode))
    }

    /** Whether a request without a receipt is debited. None: its terms are not current or not affordable. */
    method Price(r: Request, balance: int) returns (debit: Option<bool>)
      requires r.terms.episode in rows.catalog.episodes
      ensures var episode := rows.catalog.episodes[r.terms.episode];
              var policy := ResolvePolicy(r.terms.episode, episode, rows.settings.adsMode);
              debit == if Access(r).Grant? then Some(false)
                       else if (policy.mode.Coin? || policy.mode.Both?) && policy.price == Some(r.terms.price)
                               && policy.version == r.terms.version && balance >= r.terms.price
                       then Some(true) else None
    {
      if Access(r).Grant? {
        return Some(false);
      }
      var policy := ResolvePolicy(r.terms.episode, rows.catalog.episodes[r.terms.episode], rows.settings.adsMode);
      if !(policy.mode.Coin? || policy.mode.Both?) || policy.price != Some(r.terms.price)
         || policy.version != r.terms.version
      {
        return None;
      }
      if balance < r.terms.price {
        return None;
      }
      return Some(true);
    }

    /** Writes a request's receipt, after its debit if it has one. None: the debit was rejected. */
    method Complete(r: Request, w: WalletId, debit: bool) returns (receipt: Option<Receipt>)
      modifies this
      ensures receipt.Some? <==> !debit || Postable(old(rows), w, r.reference, Unlock, 0 - r.terms.price)
      ensures receipt.None? ==> rows == old(rows)
      ensures receipt.Some? ==>
        && receipt.value == ReceiptOf(old(rows), r, debit)
        && rows == old(rows).(
             ledger :=
               if debit then Posted(old(rows), w, r.reference, Unlock, 0 - r.terms.price).ledger
               else old(rows).ledger,
             spending := old(rows).spending.(
               entitlements :=
                 if debit then old(rows).spending.entitlements[(r.who.id, r.terms.episode) := Coins]
                 else old(rows).spending.entitlements,
               unlocks := old(rows).spending.unlocks[(w, r.id) := receipt.value]))
    {
      var charged, entry := 0, None;
      if debit {
        charged, entry := r.terms.price, Some(|rows.ledger|);
        var inserted := DebitAndGrant(r, w);
        if !inserted {
          return None;
        }
      }
      receipt := Some(Receipt(r.terms, charged, entry));
      rows := rows.(spending := rows.spending.(unlocks := rows.spending.unlocks[(w, r.id) := receipt.value]));
    }

    /** The part of an unlock after the wallet is locked; `before` are the rows at its start. */
    method Confirm(r: Request, existing: Option<Receipt>, ghost before: Tables) returns (answer: Result<(Receipt, int)>)
      requires Refused(before, r).None? && existing == Completion(before, r.who.id, r.id)
      requires rows == WithWallet(before, r.who.id, r.wallet)
      modifies this
      ensures answer == Unlocks.UnlockEpisode(before, r)
      ensures answer.Done? ==> rows == answer.tables
    {
      var w := rows.wallets.walletOf[r.who.id];
      var balance := WalletBalance(w);
      if existing.Some? {
        var access := Access(r);
        return if access.Grant? then Done((existing.value, balance), rows) else Raised(CoinUnavailable);
      }
      var debit := Price(r, balance);
      if debit.None? {
        return Raised(CoinUnavailable);
      }
      var receipt := Complete(r, w, debit.value);
      if receipt.None? {
        return Raised(Integrity);
      }
      balance := WalletBalance(w);
      assert rows == Completing(before, r, debit.value);
      return Done((receipt.value, balance), rows);
    }

    method UnlockEpisode(r: Request) returns (answer: Result<(Receipt, int)>, locks: seq<Lock>)
      modifies this
      ensures answer == Unlocks.UnlockEpisode(old(rows), r)
      ensures rows == After(old(rows), answer)
      ensures Orderly(rank, locks) && locks == UnlockLocks(old(rows), r)
    {
      var before := rows;
      var existing := Completion(rows, r.who.id, r.id);
      var refused;
      refused, locks := AdmitUnlock(r);
      if refused.Some? {
        return Raised(refused.value), locks;
      }
      answer := Confirm(r, existing, before);
      if answer.Raised? {
        rows := before;
      }
    }

    method ResolveUnlock(r: Request) returns (answer: Result<(Resolution, int)>, locks: seq<Lock>)
      modifies this
      ensures answer == Unlocks.ResolveUnlock(old(rows), r)
      ensures rows == After(old(rows), answer)
      ensures Orderly(rank, locks) && locks == ResolveLocks(old(rows), r)
    {
      locks := [];
      var before := rows;
      var current;
      current, locks := LockCurrentProfile(r.who, locks);
      if !current {
        return Raised(AuthenticationFailed), locks;
      }
      if !rows.settings.spendingEnabled {
        return Raised(CoinUnavailable), locks;
      }
      var created := GetOrCreateWallet(r.who.id, r.wallet);
      if created.None? {
        return Raised(Integrity), locks;
      }
      var w := created.value;
      locks := Acquired(rank, locks, WalletRow(r.who.uid, w));
      var balance := WalletBalance(w);
      var key := (w, r.id);
      if key in rows.spending.unlocks {
        var existing := rows.spending.unlocks[key];
        if existing.terms != r.terms {
          rows := before;
          return Raised(CoinUnavailable), locks;
        }
        return Done((Completed(existing), balance), rows), locks;
      }
      if key in rows.spending.cancellations {
        if rows.spending.cancellations[key] != r.terms {
          rows := before;
          return Raised(CoinUnavailable), locks;
        }
        assert rows.spending.cancellations[key := r.terms] == rows.spending.cancellations;
        return Done((Cancelled(r.terms), balance), rows), locks;
      }
      if !(1 <= r.terms.price <= MAX_ENTRY_COINS) {
        rows := before;
        return Raised(Integrity), locks;
      }
      rows := rows.(spending := rows.spending.(cancellations := rows.spending.cancellations[key := r.terms]));
      return Done((Cancelled(r.terms), balance), rows), locks;
    }

    // Rewards

    /** Answers a request that has an intent already. */
    method FindIntent(who: ProfileRef, episode: EpisodeId, request: RequestId, held: seq<Lock>)
      returns (r: Result<(Uuid, bool)>, locks: seq<Lock>)
      requires Current(rows, who) && (who.id, request) in rows.ads.requests
      requires held == AccountLocks(who) && Below(held, 7)
      ensures var existing := rows.ads.requests[(who.id, request)];
              r == if existing in rows.ads.intents && rows.ads.intents[existing].episode == episode
                      && episode in rows.catalog.episodes
                   then Done((existing, false), rows) else Raised(RewardUnavailable)
      ensures Orderly(rank, locks) && locks == IntentLocks(rows, who, episode, request)
    {
      locks := held;
      var existing := rows.ads.requests[(who.id, request)];
      if existing !in rows.ads.intents {
        return Raised(RewardUnavailable), locks;
      }
      var found;
      found, locks := LockEpisodeForAccess(rows.ads.intents[existing].episode, locks);
      if found.None? || rows.ads.intents[existing].episode != episode {
        return Raised(RewardUnavailable), locks;
      }
      locks := Acquired(rank, locks, IntentRow(who.uid, existing));
      return Done((existing, false), rows), locks;
    }

    /** Creates an intent for a new request. */
    method OpenIntent(
      who: ProfileRef, episode: EpisodeId, request: RequestId, expected: Option<Version>, custom: Uuid, user: Uuid,
      held: seq<Lock>)
      returns (r: Result<(Uuid, bool)>, locks: seq<Lock>)
      requires Current(rows, who) && (who.id, request) !in rows.ads.requests && Below(held, 7)
      modifies this
      ensures r == Rewards.CreateIntent(old(rows), who, episode, request, expected, custom, user)
      ensures rows == After(old(rows), r)
      ensures Orderly(rank, locks) && locks == held + EpisodeLocks(old(rows), episode)
    {
      var found;
      found, locks := LockEpisodeForAccess(episode, held);
      if found.None? || !found.value.eligible {
        return Raised(NotFound), locks;
      }
      if !OfferAvailable(rows, episode, who.id) {
        return Raised(RewardUnavailable), locks;
      }
      var version := ResolvePolicy(episode, found.value, rows.settings.adsMode).version;
      if expected.Some? && expected.value != version {
        return Raised(RewardUnavailable), locks;
      }
      if custom in rows.ads.intents {
        return Raised(Integrity), locks;
      }
      var intent := Intent(who.id, episode, request, user, rows.settings.adUnit, Some(version),
                           rows.clock, rows.clock + INTENT_LIFETIME, None);
      rows := rows.(ads := Ads(rows.ads.intents[custom := intent], rows.ads.requests[(who.id, request) := custom]));
      return Done((custom, true), rows), locks;
    }

    method CreateIntent(
      who: ProfileRef, episode: EpisodeId, request: RequestId, expected: Option<Version>, custom: Uuid, user: Uuid)
      returns (r: Result<(Uuid, bool)>, locks: seq<Lock>)
      modifies this
      ensures r == Rewards.CreateIntent(old(rows), who, episode, request, expected, custom, user)
      ensures rows == After(old(rows), r)
      ensures Orderly(rank, locks) && locks == IntentLocks(old(rows), who, episode, request)
    {
      var current;
      current, locks := LockCurrentProfile(who, []);
      if !current {
        return Raised(AuthenticationFailed), locks;
      }
      if (who.id, request) in rows.ads.requests {
        r, locks := FindIntent(who, episode, request, locks);
        return;
      }
      r, locks := OpenIntent(who, episode, request, expected, custom, user, locks);
    }

    /** Everything a callback names is there, current and its own. */
    ghost predicate Named(c: Callback)
      reads this
    {
      && c.custom in rows.ads.intents
      && var intent := rows.ads.intents[c.custom];
      && intent.profile in rows.people.profiles && rows.people.profiles[intent.profile].uid !in rows.people.deletions
      && intent.episode in rows.catalog.episodes && intent.user == c.user
    }

    /** The checks on a callback whose intent, account and episode are locked. */
    method JudgeCallback(c: Callback, intent: Intent) returns (verdict: Verdict)
      requires Named(c) && rows.ads.intents[c.custom] == intent
      requires !rows.settings.adsMode.AdsDisabled?
      ensures verdict == Judge(rows, c)
    {
      if c.adUnit != UnitName(intent.adUnit) || intent.adUnit != rows.settings.adUnit {
        return Deny;
      }
      if intent.granted.Some? {
        return if intent.granted.value.transaction == c.transaction && intent.granted.value.timestamp == c.timestamp
          then Acknowledge else Deny;
      }
      var now := rows.clock;
      if !(intent.createdAt - EARLY_TOLERANCE <= c.timestamp < intent.expiresAt) {
        return Deny;
      }
      if now >= intent.expiresAt || c.timestamp > now + CLOCK_SKEW {
        return Deny;
      }
      if TransactionUsed(rows, c.transaction) {
        return Deny;
      }
      if intent.version != Some(CurrentVersion(rows, intent.episode))
         || !OfferAvailable(rows, intent.episode, intent.profile)
      {
        return Deny;
      }
      return GrantNow;
    }

    /** Locks the account, the episode and the intent of a callback. */
    method LockIntent(c: Callback, held: seq<Lock>) returns (named: bool, locks: seq<Lock>)
      requires !rows.settings.adsMode.AdsDisabled?
      requires held == [AdvertLock(c.transaction)]
      ensures named <==> Named(c)
      ensures Orderly(rank, locks) && locks == GrantLocks(rows, c)
    {
      locks := held;
      if c.custom !in rows.ads.intents {
        return false, locks;
      }
      var intent := rows.ads.intents[c.custom];
      if intent.profile !in rows.people.profiles {
        return false, locks;
      }
      var who := ProfileRef(intent.profile, rows.people.profiles[intent.profile].uid);
      var current;
      current, locks := LockCurrentProfile(who, locks);
      if !current {
        return false, locks;
      }
      var found;
      found, locks := LockEpisodeForAccess(intent.episode, locks);
      locks := Acquired(rank, locks, IntentRow(who.uid, c.custom));
      return found.Some? && intent.user == c.user, locks;
    }

    method GrantVerifiedReward(c: Callback) returns (r: Result<bool>, locks: seq<Lock>)
      modifies this
      ensures r == GrantReward(old(rows), c)
      ensures rows == After(old(rows), r)
      ensures Orderly(rank, locks) && locks == GrantLocks(old(rows), c)
    {
      locks := [];
      if rows.settings.adsMode.AdsDisabled? {
        return Raised(InvalidCallback), locks;
      }
      locks := Acquired(rank, locks, AdvertLock(c.transaction));
      var named;
      named, locks := LockIntent(c, locks);
      if !named {
        return Raised(InvalidCallback), locks;
      }
      r := SettleCallback(c, rows.ads.intents[c.custom]);
    }

    /** What a callback does once everything it names is locked. */
    method SettleCallback(c: Callback, intent: Intent) returns (r: Result<bool>)
      requires Named(c) && rows.ads.intents[c.custom] == intent
      requires !rows.settings.adsMode.AdsDisabled?
      modifies this
      ensures r == GrantReward(old(rows), c)
      ensures rows == After(old(rows), r)
    {
      var verdict := JudgeCallback(c, intent);
      if verdict.Deny? {
        return Raised(InvalidCallback);
      }
      if verdict.Acknowledge? {
        return Done(false, rows);
      }
      RecordGrant(c, intent);
      return Done(true, rows);
    }

    /** The entitlement and the granted intent. */
    method RecordGrant(c: Callback, intent: Intent)
      requires c.custom in rows.ads.intents && rows.ads.intents[c.custom] == intent && Judge(rows, c).GrantNow?
      modifies this
      ensures rows == GrantReward(old(rows), c).tables
    {
      ghost var before := rows;
      var key := (intent.profile, intent.episode);
      if key !in rows.spending.entitlements {
        rows := rows.(spending := rows.spending.(entitlements := rows.spending.entitlements[key := Reward]));
      }
      if rows.spending.entitlements[key].Coins? {
        // The offer was available only because nothing was held: this guard never fires.
        assert false;
      }
      assert rows.spending.entitlements
          == before.spending.entitlements[key := Held(before, key.0, key.1).GetOr(Reward)];
      rows := rows.(ads := rows.ads.(
        intents := rows.ads.intents[
          c.custom := intent.(granted := Some(Granted(rows.clock, c.transaction, c.timestamp)))]));
    }

    // Accounts

    /** `uid` is verified and stripped. */
    method GetOrCreateProfile(uid: Uid) returns (r: Result<Uid>, locks: seq<Lock>)
      requires Ranked(rank, rows)
      modifies this
      ensures r == Accounts.GetOrCreateProfile(old(rows), uid)
      ensures rows == After(old(rows), r)
      ensures Orderly(rank, locks) && locks == SignInLocks(old(rows), uid, rank)
    {
      locks := [];
      if uid == "" || |uid| > UID_MAX_LENGTH {
        return Raised(Integrity), locks;
      }
      locks := Acquired(rank, locks, AccountLock(uid));
      if uid in rows.people.deletions {
        return Raised(Revoked), locks;
      }
      if p :| p in rows.people.profiles && rows.people.profiles[p].uid == uid {
        locks := Acquired(rank, locks, ProfileRow(uid, p));
      } else {
        var p := rows.people.nextProfile;
        rows := rows.(people := rows.people.(
          profiles := rows.people.profiles[p := Profile(uid, false)], nextProfile := p + 1));
      }
      return Done(uid, rows), locks;
    }

    /** Locks an account's rows in whatever order the cascades reach them. */
    method LockCascade(uid: Uid, cascade: seq<Lock>, held: seq<Lock>) returns (locks: seq<Lock>)
      requires held == [AccountLock(uid)] && forall lock :: lock in cascade ==> OfAccount(lock) && lock.uid == uid
      requires forall i, j :: 0 <= i < j < |cascade| ==> cascade[i] != cascade[j]
      ensures Orderly(rank, locks) && locks == held + cascade
    {
      locks := held;
      for i := 0 to |cascade|
        invariant Orderly(rank, locks) && locks == held + cascade[..i]
      {
        assert cascade[i] in cascade;
        locks := Acquired(rank, locks, cascade[i]);
      }
    }

    /** Records the deletion and then deletes the profile: entitlements and intents go with it, and its
        wallet loses its owner. The cascades lock the account's rows one by one. */
    method RequestDeletion(uid: Uid, authenticatedAt: Option<Instant>, cascade: seq<Lock>)
      returns (r: Result<Uid>, locks: seq<Lock>)
      requires Cascading(rows, uid, cascade)
      modifies this
      ensures r == Accounts.RequestDeletion(old(rows), uid, authenticatedAt)
      ensures rows == After(old(rows), r)
      ensures Orderly(rank, locks) && locks == if r.Done? then [AccountLock(uid)] + cascade else []
    {
      locks := [];
      if authenticatedAt.None? || !(0 <= rows.clock - authenticatedAt.value <= REAUTHENTICATION_WINDOW) {
        return Raised(ReauthenticationRequired), locks;
      }
      locks := Acquired(rank, locks, AccountLock(uid));
      rows := rows.(people := rows.people.(deletions := rows.people.deletions + {uid}));
      CascadeIsOfAccount(rows, uid, cascade);
      locks := LockCascade(uid, cascade, locks);
      var doomed := set p | p in rows.people.profiles && rows.people.profiles[p].uid == uid;
      rows := rows.(spending := rows.spending.(
        entitlements := map k | k in rows.spending.entitlements && k.0 !in doomed :: rows.spending.entitlements[k]));
      rows := rows.(ads := Ads(
        map c | c in rows.ads.intents && rows.ads.intents[c].profile !in doomed :: rows.ads.intents[c],
        map k | k in rows.ads.requests && k.0 !in doomed :: rows.ads.requests[k]));
      rows := rows.(wallets := Detached(rows.wallets, doomed));
      rows := rows.(people := rows.people.(profiles := rows.people.profiles - doomed));
      return Done(uid, rows), locks;
    }

    // Staff

    /** Locks accounts in the table's order. The flag says every one is there and current. */
    method LockAccounts(profiles: set<ProfileId>) returns (lockable: bool, locks: seq<Lock>)
      requires Ranked(rank, rows)
      ensures lockable <==> Lockable(rows, profiles, {})
      ensures Below(locks, 7)
      ensures lockable ==> forall lock :: lock in locks <==> lock in TargetLocks(rows, profiles, {})
    {
      locks := [];
      if exists p :: p in profiles && p !in rows.people.profiles {
        return false, locks;
      }
      var left := profiles;
      while left != {}
        invariant left <= profiles
        invariant forall p :: p in profiles && p !in left ==> rows.people.profiles[p].uid !in rows.people.deletions
        invariant Below(locks, 7) && forall p :: p in left ==> AllBefore(locks, p)
        invariant forall lock :: lock in locks <==>
          exists p :: p in profiles && p !in left && lock in AccountLocks(RefOf(rows, p))
        decreases left
      {
        var p := Least(left);
        var current;
        current, locks := LockAccount(p, locks);
        if !current {
          return false, locks;
        }
        left := left - {p};
        forall other | other in left ensures AllBefore(locks, other) {
          LaterAccountMayFollow(p, locks, other);
        }
      }
      return true, locks;
    }

    /** Every lock held is before this account's. */
    ghost predicate AllBefore(held: seq<Lock>, p: ProfileId)
      requires p in rows.people.profiles
      reads this
    {
      forall lock :: lock in held ==> Before(rank, lock, AccountLock(rows.people.profiles[p].uid))
    }

    /** One more account. */
    method LockAccount(p: ProfileId, held: seq<Lock>) returns (current: bool, locks: seq<Lock>)
      requires p in rows.people.profiles && Below(held, 7) && AllBefore(held, p)
      ensures current <==> rows.people.profiles[p].uid !in rows.people.deletions
      ensures Below(locks, 7) && forall lock :: lock in locks <==> lock in held || lock in AccountLocks(RefOf(rows, p))
    {
      current, locks := LockCurrentProfile(ProfileRef(p, rows.people.profiles[p].uid), held);
    }

    lemma LaterAccountMayFollow(p: ProfileId, locks: seq<Lock>, other: ProfileId)
      requires Ranked(rank, rows) && p in rows.people.profiles && other in rows.people.profiles && p < other
      requires forall lock :: lock in locks ==>
        Before(rank, lock, AccountLock(rows.people.profiles[p].uid)) || lock in AccountLocks(RefOf(rows, p))
      ensures AllBefore(locks, other)
    {
    }

    /** Every lock held is before this episode, and its series is held or still to come. */
    ghost predicate MayFollow(locks: seq<Lock>, e: EpisodeId)
      requires e in rows.catalog.episodes
      reads this
    {
      && (forall lock :: lock in locks ==> Before(rank, lock, EpisodeRow(rows.catalog.episodes[e].series, e)))
      && (SeriesRow(rows.catalog.episodes[e].series) in locks
          || forall lock :: lock in locks ==> Before(rank, lock, SeriesRow(rows.catalog.episodes[e].series)))
    }

    /** One more episode, locked after its series. */
    method LockNext(e: EpisodeId, held: seq<Lock>) returns (locks: seq<Lock>)
      requires e in rows.catalog.episodes && Below(held, 8) && MayFollow(held, e)
      ensures Below(locks, 8)
      ensures forall lock :: lock in locks <==> lock in held || lock in EpisodeLocks(rows, e)
    {
      locks := Acquired(rank, held, SeriesRow(rows.catalog.episodes[e].series));
      locks := Acquired(rank, locks, EpisodeRow(rows.catalog.episodes[e].series, e));
    }

    /** Locks episodes, each after its series, by series and then by identifier. */
    method LockEpisodes(episodes: set<EpisodeId>, held: seq<Lock>) returns (locks: seq<Lock>)
      requires forall e :: e in episodes ==> e in rows.catalog.episodes
      requires Below(held, 7)
      ensures Below(locks, 8)
      ensures forall lock :: lock in locks <==> lock in held || lock in TargetLocks(rows, {}, episodes)
    {
      locks := held;
      var remaining := episodes;
      while remaining != {}
        invariant remaining <= episodes
        invariant Below(locks, 8)
        invariant forall e :: e in remaining ==> MayFollow(locks, e)
        invariant forall lock :: lock in locks <==>
          lock in held || exists e :: e in episodes && e !in remaining && lock in EpisodeLocks(rows, e)
        decreases remaining
      {
        var e := NextEpisode(rows, rank, remaining);
        ghost var before := locks;
        locks := LockNext(e, locks);
        remaining := remaining - {e};
        forall other | other in remaining ensures MayFollow(locks, other) {
          LaterEpisodeMayFollow(e, before, locks, other);
        }
      }
    }

    lemma LaterEpisodeMayFollow(e: EpisodeId, before: seq<Lock>, locks: seq<Lock>, other: EpisodeId)
      requires e in rows.catalog.episodes && other in rows.catalog.episodes && MayFollow(before, e)
      requires forall lock :: lock in locks <==> lock in before || lock in EpisodeLocks(rows, e)
      requires Before(rank, EpisodeRow(rows.catalog.episodes[e].series, e),
                      EpisodeRow(rows.catalog.episodes[other].series, other))
      ensures MayFollow(locks, other)
    {
      assert EpisodeLocks(rows, e)[0] == SeriesRow(rows.catalog.episodes[e].series);
    }

    /** Locks the accounts and then the episodes of a manual change. The flag says every target is there
        and current. */
    method LockTargets(profiles: set<ProfileId>, episodes: set<EpisodeId>) returns (lockable: bool, locks: seq<Lock>)
      requires Ranked(rank, rows)
      ensures lockable <==> Lockable(rows, profiles, episodes)
      ensures Below(locks, 8)
      ensures lockable ==> forall lock :: lock in locks <==> lock in TargetLocks(rows, profiles, episodes)
    {
      lockable, locks := LockAccounts(profiles);
      if !lockable || exists e :: e in episodes && e !in rows.catalog.episodes {
        return false, locks;
      }
      locks := LockEpisodes(episodes, locks);
      return true, locks;
    }

    method StaffSave(p: ProfileId, episode: EpisodeId, source: Source, change: bool)
      returns (r: Result<Source>, locks: seq<Lock>)
      requires Ranked(rank, rows)
      modifies this
      ensures r == Accounts.StaffSave(old(rows), p, episode, source, change)
      ensures rows == After(old(rows), r)
      ensures Orderly(rank, locks)
      ensures r.Done? ==> forall lock :: lock in locks <==>
        || lock in TargetLocks(old(rows), {p}, {episode})
        || (change && lock == EntitlementRow(old(rows).people.profiles[p].uid, episode))
    {
      var lockable;
      lockable, locks := LockTargets({p}, {episode});
      if !lockable || source.Coins? {
        return Raised(PermissionDenied), locks;
      }
      if change != ((p, episode) in rows.spending.entitlements) {
        return Raised(Integrity), locks;
      }
      if change {
        locks := Acquired(rank, locks, EntitlementRow(rows.people.profiles[p].uid, episode));
        if rows.spending.entitlements[(p, episode)].Coins? {
          return Raised(PermissionDenied), locks;
        }
      }
      rows := rows.(spending := rows.spending.(entitlements := rows.spending.entitlements[(p, episode) := source]));
      return Done(source, rows), locks;
    }

    /** Locks a selection's rows in the order the query returns them. */
    method LockEntitlements(
      selected: set<(ProfileId, EpisodeId)>, queried: seq<(ProfileId, EpisodeId)>, held: seq<Lock>)
      returns (locks: seq<Lock>)
      requires Ranked(rank, rows) && Queried(rows, selected, queried) && Below(held, 8)
      requires forall lock :: lock in held ==> !lock.EntitlementRow?
      requires forall k :: k in selected ==>
        k.0 in rows.people.profiles && AccountLock(rows.people.profiles[k.0].uid) in held
      ensures Orderly(rank, locks) && locks == held + EntitlementRows(rows, queried)
    {
      locks := held;
      ghost var plan := EntitlementRows(rows, queried);
      for i := 0 to |queried|
        invariant Orderly(rank, locks) && locks == held + plan[..i]
      {
        assert queried[i] in queried;
        forall j | 0 <= j < i ensures plan[j] != plan[i] {
          assert queried[j] in queried && queried[j] != queried[i];
        }
        locks := Acquired(rank, locks, EntitlementRow(rows.people.profiles[queried[i].0].uid, queried[i].1));
      }
    }

    method StaffDelete(selected: set<(ProfileId, EpisodeId)>, queried: seq<(ProfileId, EpisodeId)>)
      returns (r: Result<bool>, locks: seq<Lock>)
      requires Ranked(rank, rows) && Queried(rows, selected, queried)
      modifies this
      ensures r == Accounts.StaffDelete(old(rows), selected)
      ensures rows == After(old(rows), r)
      ensures Orderly(rank, locks)
      ensures r.Done? ==> forall lock :: lock in locks <==>
        || lock in TargetLocks(old(rows), set k | k in selected :: k.0, set k | k in selected :: k.1)
        || lock in EntitlementRows(old(rows), queried)
    {
      var lockable;
      lockable, locks := LockTargets(set k | k in selected :: k.0, set k | k in selected :: k.1);
      if !lockable {
        return Raised(PermissionDenied), locks;
      }
      locks := LockEntitlements(selected, queried, locks);
      if exists k :: k in selected && k in rows.spending.entitlements && rows.spending.entitlements[k].Coins? {
        return Raised(PermissionDenied), locks;
      }
      rows := rows.(spending := rows.spending.(entitlements := rows.spending.entitlements - selected));
      return Done(true, rows), locks;
    }
  }

  method Least(s: set<nat>) returns (least: nat)
    requires s != {}
    ensures least in s && forall x :: x in s ==> least <= x
  {
    least :| least in s;
    var left := s - {least};
    while left != {}
      invariant left <= s && least in s
      invariant forall x :: x in s && x !in left ==> least <= x
      decreases left
    {
      var x :| x in left;
      if x < least {
        least := x;
      }
      left := left - {x};
    }
  }

  /** The first of some episodes by series and then by identifier. */
  method NextEpisode(rows: Tables, ghost rank: Rank, episodes: set<EpisodeId>) returns (first: EpisodeId)
    requires episodes != {} && forall e :: e in episodes ==> e in rows.catalog.episodes
    ensures first in episodes
    ensures forall e :: e in episodes && e != first ==>
      Before(rank, EpisodeRow(rows.catalog.episodes[first].series, first),
             EpisodeRow(rows.catalog.episodes[e].series, e))
  {
    first :| first in episodes;
    var left := episodes - {first};
    while left != {}
      invariant left <= episodes && first in episodes
      invariant forall e :: e in episodes && e !in left && e != first ==>
        Before(rank, EpisodeRow(rows.catalog.episodes[first].series, first),
               EpisodeRow(rows.catalog.episodes[e].series, e))
      decreases left
    {
      var e :| e in left;
      var series, best := rows.catalog.episodes[e].series, rows.catalog.episodes[first].series;
      if series < best || (series == best && e < first) {
        first := e;
      }
      left := left - {e};
    }
  }
}
