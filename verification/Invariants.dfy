/** What every reachable state of the accounting protocol satisfies, table by table, and how each kind
    of row change keeps it. */
module Invariants {
  import opened Wrappers
  import opened Registry
  import opened Packs
  import opened Policy
  import opened Tables
  import opened Rewards

  // Accounts and wallets

  ghost predicate PeopleOk(people: People) {
    && (forall p :: p in people.profiles ==> p < people.nextProfile && people.profiles[p].uid !in people.deletions)
    && (forall p, q ::
          p in people.profiles && q in people.profiles && people.profiles[p].uid == people.profiles[q].uid ==> p == q)
  }

  /** The owner column and its unique index agree, and owners exist. */
  ghost predicate WalletsOk(wallets: Wallets, people: People) {
    && (forall p :: p in wallets.walletOf ==>
          && p in people.profiles
          && wallets.walletOf[p] in wallets.owners && wallets.owners[wallets.walletOf[p]] == Some(p))
    && (forall w :: w in wallets.owners && wallets.owners[w].Some? ==>
          && wallets.owners[w].value in wallets.walletOf && wallets.walletOf[wallets.owners[w].value] == w)
  }

  // The ledger

  ghost predicate LinesOk(ledger: seq<Entry>, wallets: Wallets) {
    && (forall i :: 0 <= i < |ledger| ==>
          ledger[i].wallet in wallets.owners && Admissible(ledger[i].kind, ledger[i].amount))
    && (forall i, j :: 0 <= i < j < |ledger| ==> ledger[i].reference != ledger[j].reference)
  }

  /** Wallet `w` held an allowed balance after the first `n` lines. */
  predicate SolventAt(ledger: seq<Entry>, n: nat, w: WalletId)
    requires n <= |ledger|
  {
    0 <= Balance(ledger[..n], w) <= MAX_BALANCE_COINS
  }

  /** At no moment of its history was any wallet overdrawn or above the safe limit. */
  ghost predicate Solvent(ledger: seq<Entry>) {
    forall n: nat, w | n <= |ledger| :: SolventAt(ledger, n, w)
  }

  lemma BalanceAppended(ledger: seq<Entry>, line: Entry, w: WalletId)
    ensures Balance(ledger + [line], w) == Balance(ledger, w) + (if line.wallet == w then line.amount else 0)
  {
    assert (ledger + [line])[..|ledger|] == ledger;
  }

  lemma SolventNow(ledger: seq<Entry>, w: WalletId)
    requires Solvent(ledger)
    ensures 0 <= Balance(ledger, w) <= MAX_BALANCE_COINS
  {
    assert SolventAt(ledger, |ledger|, w);
    assert ledger[..|ledger|] == ledger;
  }

  lemma SolventAfter(ledger: seq<Entry>, line: Entry)
    requires Solvent(ledger)
    requires 0 <= Balance(ledger, line.wallet) + line.amount <= MAX_BALANCE_COINS
    ensures Solvent(ledger + [line])
  {
    forall n: nat, w | n <= |ledger + [line]|
      ensures SolventAt(ledger + [line], n, w)
    {
      if n <= |ledger| {
        assert SolventAt(ledger, n, w);
        assert (ledger + [line])[..n] == ledger[..n];
      } else {
        SolventNow(ledger, w);
        BalanceAppended(ledger, line, w);
        assert (ledger + [line])[..n] == ledger + [line];
      }
    }
  }

  // Credits: one purchase line for each credited decision, and conversely

  predicate Backs(decisions: map<TxKey, Decision>, k: TxKey, i: int) {
    k in decisions && decisions[k].Credited? && decisions[k].entry == i
  }

  /** The line of a credited decision is its own purchase, in its identity's wallet, for its coins. */
  predicate CreditLine(ledger: seq<Entry>, identities: map<Uuid, WalletId>, d: Decision)
    requires d.Credited?
  {
    && d.entry < |ledger|
    && d.identity in identities
    && var line := ledger[d.entry];
    && line.wallet == identities[d.identity] && line.reference == d.receipt && line.kind.Purchase?
    && line.amount == d.coins
  }

  ghost predicate CreditsOk(ledger: seq<Entry>, store: Store) {
    && (forall k :: k in store.decisions && store.decisions[k].Credited? ==>
          CreditLine(ledger, store.identities, store.decisions[k]))
    && (forall k, l, i :: Backs(store.decisions, k, i) && Backs(store.decisions, l, i) ==> k == l)
    && (forall i :: 0 <= i < |ledger| && ledger[i].kind.Purchase? ==> exists k :: Backs(store.decisions, k, i))
  }

  /** A credited decision is always decided under its application's permanent key. */
  ghost predicate CreditKeysOk(store: Store) {
    forall k :: k in store.decisions && store.decisions[k].Credited? ==>
      && k.Resolved?
      && store.decisions[k].product.app in store.bindings
      && store.bindings[store.decisions[k].product.app] == k.application
      && store.decisions[k].product.application == k.application
  }

  ghost predicate Injective<K, V>(m: map<K, V>) {
    forall a, b :: a in m && b in m && m[a] == m[b] ==> a == b
  }

  ghost predicate IdentitiesOk(store: Store, wallets: Wallets) {
    && (forall u :: u in store.identities ==> store.identities[u] in wallets.owners)
    && Injective(store.identities)
  }

  /** The transaction has a decision: under its raw key, or under the key of its app's binding. */
  predicate Settled(store: Store, t: Transaction) {
    || Raw(t) in store.decisions
    || (t.app in store.bindings && ResolvedKey(t, store.bindings[t.app]) in store.decisions)
  }

  ghost predicate EventsOk(store: Store) {
    forall e :: e in store.events ==> Settled(store, TransactionOf(e)) && store.events[e].decision in store.decisions
  }

  // Debits: one unlock line for each charged receipt, and conversely

  predicate Explains(unlocks: map<RequestKey, Receipt>, k: RequestKey, i: nat) {
    k in unlocks && unlocks[k].entry == Some(i)
  }

  predicate ReceiptOk(ledger: seq<Entry>, w: WalletId, r: Receipt) {
    match r.entry
    case None => r.charged == 0
    case Some(i) =>
      && r.charged > 0 && r.charged == r.terms.price
      && i < |ledger|
      && ledger[i].wallet == w && ledger[i].kind.Unlock? && ledger[i].amount == 0 - r.charged
  }

  ghost predicate DebitsOk(ledger: seq<Entry>, spending: Spending) {
    && (forall k :: k in spending.unlocks ==> ReceiptOk(ledger, k.0, spending.unlocks[k]))
    && (forall k, l, i: nat :: Explains(spending.unlocks, k, i) && Explains(spending.unlocks, l, i) ==> k == l)
    && (forall i: nat :: i < |ledger| && ledger[i].kind.Unlock? ==> exists k :: Explains(spending.unlocks, k, i))
  }

  ghost predicate TerminalsOk(spending: Spending, wallets: Wallets) {
    && spending.unlocks.Keys !! spending.cancellations.Keys
    && (forall k :: k in spending.unlocks ==> k.0 in wallets.owners)
    && (forall k :: k in spending.cancellations ==> k.0 in wallets.owners)
  }

  // Entitlements

  ghost predicate GrantsOk(spending: Spending, people: People, catalog: Catalog) {
    && catalog.episodes.Keys !! catalog.withdrawn
    && (forall k :: k in spending.entitlements ==> k.0 in people.profiles && k.1 in catalog.episodes)
  }

  predicate ChargedFor(unlocks: map<RequestKey, Receipt>, k: RequestKey, w: WalletId, episode: EpisodeId) {
    k in unlocks && k.0 == w && unlocks[k].charged > 0 && unlocks[k].terms.episode == episode
  }

  /** A charged episode is known; while it and its buyer exist the buyer holds a coin grant for it; and
      no wallet has two charges for one episode. */
  ghost predicate ChargesOk(spending: Spending, wallets: Wallets, catalog: Catalog) {
    && (forall k :: k in spending.unlocks && spending.unlocks[k].charged > 0 ==>
          || spending.unlocks[k].terms.episode in catalog.episodes
          || spending.unlocks[k].terms.episode in catalog.withdrawn)
    && (forall k, p, episode ::
          p in wallets.walletOf && ChargedFor(spending.unlocks, k, wallets.walletOf[p], episode)
          && episode in catalog.episodes ==>
            (p, episode) in spending.entitlements && spending.entitlements[(p, episode)].Coins?)
    && (forall k, l, w, episode ::
          ChargedFor(spending.unlocks, k, w, episode) && ChargedFor(spending.unlocks, l, w, episode) ==> k == l)
  }

  // Rewards

  ghost predicate AdsOk(ads: Ads, people: People, catalog: Catalog) {
    && (forall c :: c in ads.intents ==>
          && ads.intents[c].profile in people.profiles && ads.intents[c].episode in catalog.episodes
          && (ads.intents[c].profile, ads.intents[c].request) in ads.requests
          && ads.requests[(ads.intents[c].profile, ads.intents[c].request)] == c)
    && (forall k :: k in ads.requests ==>
          && ads.requests[k] in ads.intents
          && (ads.intents[ads.requests[k]].profile, ads.intents[ads.requests[k]].request) == k)
    && (forall c, d, t :: GrantedBy(ads.intents, c, t) && GrantedBy(ads.intents, d, t) ==> c == d)
  }

  ghost predicate SettingsOk(settings: Settings) {
    settings.registry.Some? ==> WellFormed(settings.registry.value)
  }

  // Everything

  ghost predicate Inv(s: Tables) {
    && SettingsOk(s.settings)
    && Sound(s.packs, s.clock)
    && PeopleOk(s.people)
    && WalletsOk(s.wallets, s.people)
    && LinesOk(s.ledger, s.wallets) && Solvent(s.ledger)
    && CreditsOk(s.ledger, s.store) && CreditKeysOk(s.store) && IdentitiesOk(s.store, s.wallets)
    && Injective(s.store.bindings) && EventsOk(s.store)
    && DebitsOk(s.ledger, s.spending) && TerminalsOk(s.spending, s.wallets)
    && GrantsOk(s.spending, s.people, s.catalog) && ChargesOk(s.spending, s.wallets, s.catalog)
    && AdsOk(s.ads, s.people, s.catalog)
  }

  // Row changes, one at a time

  lemma LineAppended(ledger: seq<Entry>, wallets: Wallets, line: Entry)
    requires LinesOk(ledger, wallets) && Solvent(ledger)
    requires line.wallet in wallets.owners && Admissible(line.kind, line.amount) && Unused(ledger, line.reference)
    requires 0 <= Balance(ledger, line.wallet) + line.amount <= MAX_BALANCE_COINS
    ensures LinesOk(ledger + [line], wallets) && Solvent(ledger + [line])
  {
    SolventAfter(ledger, line);
  }

  /** A line that is no purchase leaves the credits matched; one that is no unlock, the debits. */
  lemma OtherLineAppended(ledger: seq<Entry>, store: Store, spending: Spending, line: Entry)
    ensures CreditsOk(ledger, store) && !line.kind.Purchase? ==> CreditsOk(ledger + [line], store)
    ensures DebitsOk(ledger, spending) && !line.kind.Unlock? ==> DebitsOk(ledger + [line], spending)
  {
    if CreditsOk(ledger, store) && !line.kind.Purchase? {
      CreditsWiden(ledger, store, line);
    }
    if DebitsOk(ledger, spending) && !line.kind.Unlock? {
      DebitsWiden(ledger, spending, line);
    }
  }

  lemma CreditsWiden(ledger: seq<Entry>, store: Store, line: Entry)
    requires CreditsOk(ledger, store) && !line.kind.Purchase?
    ensures CreditsOk(ledger + [line], store)
  {
    forall k | k in store.decisions && store.decisions[k].Credited?
      ensures CreditLine(ledger + [line], store.identities, store.decisions[k])
    {
      assert CreditLine(ledger, store.identities, store.decisions[k]);
    }
    forall i | 0 <= i < |ledger + [line]| && (ledger + [line])[i].kind.Purchase?
      ensures exists k :: Backs(store.decisions, k, i)
    {
      assert (ledger + [line])[i] == ledger[i];
    }
  }

  lemma DebitsWiden(ledger: seq<Entry>, spending: Spending, line: Entry)
    requires DebitsOk(ledger, spending) && !line.kind.Unlock?
    ensures DebitsOk(ledger + [line], spending)
  {
    forall k | k in spending.unlocks
      ensures ReceiptOk(ledger + [line], k.0, spending.unlocks[k])
    {
      assert ReceiptOk(ledger, k.0, spending.unlocks[k]);
    }
    forall i: nat | i < |ledger + [line]| && (ledger + [line])[i].kind.Unlock?
      ensures exists k :: Explains(spending.unlocks, k, i)
    {
      assert (ledger + [line])[i] == ledger[i];
    }
  }

  /** Deciding a new transaction with a credit, together with its line, keeps the credits matched. */
  lemma CreditAppended(ledger: seq<Entry>, before: Store, after: Store, key: TxKey, line: Entry)
    requires CreditsOk(ledger, before) && key !in before.decisions
    requires key in after.decisions && after.decisions[key].Credited? && after.decisions[key].entry == |ledger|
    requires after.decisions == before.decisions[key := after.decisions[key]] && after.identities == before.identities
    requires CreditLine(ledger + [line], after.identities, after.decisions[key])
    ensures CreditsOk(ledger + [line], after)
  {
    forall k | k in after.decisions && after.decisions[k].Credited?
      ensures CreditLine(ledger + [line], after.identities, after.decisions[k])
    {
      if k != key {
        assert CreditLine(ledger, before.identities, before.decisions[k]);
      }
    }
    forall k, l, i | Backs(after.decisions, k, i) && Backs(after.decisions, l, i)
      ensures k == l
    {
      if k != key && l != key {
        assert Backs(before.decisions, k, i) && Backs(before.decisions, l, i);
      }
    }
    forall i | 0 <= i < |ledger + [line]| && (ledger + [line])[i].kind.Purchase?
      ensures exists k :: Backs(after.decisions, k, i)
    {
      if i == |ledger| {
        assert Backs(after.decisions, key, i);
      } else {
        assert (ledger + [line])[i] == ledger[i];
        var k :| Backs(before.decisions, k, i);
        assert Backs(after.decisions, k, i);
      }
    }
  }

  /** Deciding a new transaction with a quarantine, or none, keeps the credits matched. */
  lemma QuarantineAdded(ledger: seq<Entry>, before: Store, after: Store)
    requires CreditsOk(ledger, before)
    requires after.identities == before.identities
    requires forall k :: k in before.decisions ==> k in after.decisions && after.decisions[k] == before.decisions[k]
    requires forall k :: k in after.decisions && after.decisions[k].Credited? ==> k in before.decisions
    ensures CreditsOk(ledger, after)
  {
    forall k | k in after.decisions && after.decisions[k].Credited?
      ensures CreditLine(ledger, after.identities, after.decisions[k])
    {
      assert CreditLine(ledger, before.identities, before.decisions[k]);
    }
    forall k, i ensures Backs(after.decisions, k, i) <==> Backs(before.decisions, k, i) {
    }
  }

  /** Completing a request with a debit, together with its line, keeps the debits matched. */
  lemma DebitAppended(ledger: seq<Entry>, before: Spending, after: Spending, key: RequestKey, line: Entry)
    requires DebitsOk(ledger, before) && key !in before.unlocks
    requires key in after.unlocks && after.unlocks == before.unlocks[key := after.unlocks[key]]
    requires after.unlocks[key].entry == Some(|ledger|) && ReceiptOk(ledger + [line], key.0, after.unlocks[key])
    ensures DebitsOk(ledger + [line], after)
  {
    forall k | k in after.unlocks
      ensures ReceiptOk(ledger + [line], k.0, after.unlocks[k])
    {
      if k != key {
        assert ReceiptOk(ledger, k.0, before.unlocks[k]);
      }
    }
    forall k, l, i: nat | Explains(after.unlocks, k, i) && Explains(after.unlocks, l, i)
      ensures k == l
    {
      if k != key && l != key {
        assert Explains(before.unlocks, k, i) && Explains(before.unlocks, l, i);
      }
    }
    forall i: nat | i < |ledger + [line]| && (ledger + [line])[i].kind.Unlock?
      ensures exists k :: Explains(after.unlocks, k, i)
    {
      if i == |ledger| {
        assert Explains(after.unlocks, key, i);
      } else {
        assert (ledger + [line])[i] == ledger[i];
        var k :| Explains(before.unlocks, k, i);
        assert Explains(after.unlocks, k, i);
      }
    }
  }

  /** A receipt without a debit keeps the debits matched. */
  lemma FreeReceiptAdded(ledger: seq<Entry>, before: Spending, after: Spending, key: RequestKey)
    requires DebitsOk(ledger, before) && key !in before.unlocks
    requires key in after.unlocks && after.unlocks == before.unlocks[key := after.unlocks[key]]
    requires after.unlocks[key].entry.None? && after.unlocks[key].charged == 0
    ensures DebitsOk(ledger, after)
  {
    forall k | k in after.unlocks
      ensures ReceiptOk(ledger, k.0, after.unlocks[k])
    {
      if k != key {
        assert ReceiptOk(ledger, k.0, before.unlocks[k]);
      }
    }
    forall k, i: nat ensures Explains(after.unlocks, k, i) <==> Explains(before.unlocks, k, i) {
    }
  }
}
