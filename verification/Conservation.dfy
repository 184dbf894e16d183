/** Conservation of coins: what every wallet holds is exactly what its decisions credited, less what its
    receipts charged, plus corrections. */
module Conservation {
  import opened Wrappers
  import opened Tables
  import opened Invariants
  import opened Protocol

  /** The sum of a map's values. */
  ghost function Total<K(!new)>(m: map<K, int>): int
    decreases |m|
  {
    if m == map[] then 0
    else
      var k :| k in m;
      m[k] + Total(m - {k})
  }

  lemma {:induction false} TotalWithout<K(!new)>(m: map<K, int>, k: K)
    requires k in m
    ensures Total(m) == m[k] + Total(m - {k})
    decreases |m|
  {
    var first :| first in m && Total(m) == m[first] + Total(m - {first});
    if first != k {
      TotalWithout(m - {first}, k);
      TotalWithout(m - {k}, first);
      assert m - {first} - {k} == m - {k} - {first};
    }
  }

  /** The coins credited by decisions whose identity belongs to the wallet. */
  function CreditsOf(store: Store, w: WalletId): map<TxKey, int> {
    map k | k in store.decisions && store.decisions[k].Credited?
            && store.decisions[k].identity in store.identities && store.identities[store.decisions[k].identity] == w
      :: store.decisions[k].coins
  }

  /** The coins charged by the wallet's receipts. */
  function ChargesOf(spending: Spending, w: WalletId): map<RequestKey, int> {
    map k | k in spending.unlocks && k.0 == w && spending.unlocks[k].entry.Some? :: spending.unlocks[k].charged
  }

  function Corrections(ledger: seq<Entry>, w: WalletId): int {
    if ledger == [] then 0
    else
      var last := ledger[|ledger| - 1];
      Corrections(ledger[..|ledger| - 1], w) + (if last.wallet == w && last.kind.Correction? then last.amount else 0)
  }

  /** Without the last line, the debits are still matched unless it is an unlock; the credits unless it
      is a purchase. */
  lemma WithoutLastLine(ledger: seq<Entry>, store: Store, spending: Spending)
    requires ledger != []
    ensures CreditsOk(ledger, store) && !ledger[|ledger| - 1].kind.Purchase? ==>
        CreditsOk(ledger[..|ledger| - 1], store)
    ensures DebitsOk(ledger, spending) && !ledger[|ledger| - 1].kind.Unlock? ==>
        DebitsOk(ledger[..|ledger| - 1], spending)
  {
    var shorter := ledger[..|ledger| - 1];
    if CreditsOk(ledger, store) && !ledger[|ledger| - 1].kind.Purchase? {
      forall k | k in store.decisions && store.decisions[k].Credited?
        ensures CreditLine(shorter, store.identities, store.decisions[k])
      {
        assert CreditLine(ledger, store.identities, store.decisions[k]);
      }
    }
    if DebitsOk(ledger, spending) && !ledger[|ledger| - 1].kind.Unlock? {
      forall k | k in spending.unlocks ensures ReceiptOk(shorter, k.0, spending.unlocks[k]) {
        assert ReceiptOk(ledger, k.0, spending.unlocks[k]);
      }
    }
  }

  lemma WithoutLastPurchase(ledger: seq<Entry>, store: Store, k: TxKey)
    requires CreditsOk(ledger, store) && ledger != [] && Backs(store.decisions, k, |ledger| - 1)
    ensures CreditsOk(ledger[..|ledger| - 1], store.(decisions := store.decisions - {k}))
  {
    var shorter, rest := ledger[..|ledger| - 1], store.decisions - {k};
    forall l | l in rest && rest[l].Credited? ensures CreditLine(shorter, store.identities, rest[l]) {
      assert CreditLine(ledger, store.identities, store.decisions[l]);
      assert rest[l].entry != |ledger| - 1 by {
        if rest[l].entry == |ledger| - 1 {
          assert Backs(store.decisions, l, |ledger| - 1);
        }
      }
    }
    forall l, i ensures Backs(rest, l, i) <==> Backs(store.decisions, l, i) && l != k {
    }
    forall i | 0 <= i < |shorter| && shorter[i].kind.Purchase? ensures exists l :: Backs(rest, l, i) {
      var l :| Backs(store.decisions, l, i);
      assert Backs(rest, l, i);
    }
  }

  lemma WithoutLastUnlock(ledger: seq<Entry>, spending: Spending, k: RequestKey)
    requires DebitsOk(ledger, spending) && ledger != [] && Explains(spending.unlocks, k, |ledger| - 1)
    ensures DebitsOk(ledger[..|ledger| - 1], spending.(unlocks := spending.unlocks - {k}))
  {
    var shorter, rest := ledger[..|ledger| - 1], spending.unlocks - {k};
    forall l | l in rest ensures ReceiptOk(shorter, l.0, rest[l]) {
      assert ReceiptOk(ledger, l.0, spending.unlocks[l]);
      assert rest[l].entry != Some(|ledger| - 1) by {
        if rest[l].entry == Some(|ledger| - 1) {
          assert Explains(spending.unlocks, l, |ledger| - 1);
        }
      }
    }
    forall l, i: nat ensures Explains(rest, l, i) <==> Explains(spending.unlocks, l, i) && l != k {
    }
    forall i: nat | i < |shorter| && shorter[i].kind.Unlock? ensures exists l :: Explains(rest, l, i) {
      var l :| Explains(spending.unlocks, l, i);
      assert Explains(rest, l, i);
    }
  }

  lemma CreditsWithout(store: Store, w: WalletId, k: TxKey)
    requires k in store.decisions
    ensures var all := CreditsOf(store, w);
            Total(all) ==
              Total(CreditsOf(store.(decisions := store.decisions - {k}), w)) + (if k in all then all[k] else 0)
  {
    assert CreditsOf(store.(decisions := store.decisions - {k}), w) == CreditsOf(store, w) - {k};
    if k in CreditsOf(store, w) {
      TotalWithout(CreditsOf(store, w), k);
    } else {
      assert CreditsOf(store, w) - {k} == CreditsOf(store, w);
    }
  }

  lemma ChargesWithout(spending: Spending, w: WalletId, k: RequestKey)
    requires k in spending.unlocks
    ensures var all := ChargesOf(spending, w);
            Total(all) ==
              Total(ChargesOf(spending.(unlocks := spending.unlocks - {k}), w)) + (if k in all then all[k] else 0)
  {
    assert ChargesOf(spending.(unlocks := spending.unlocks - {k}), w) == ChargesOf(spending, w) - {k};
    if k in ChargesOf(spending, w) {
      TotalWithout(ChargesOf(spending, w), k);
    } else {
      assert ChargesOf(spending, w) - {k} == ChargesOf(spending, w);
    }
  }

  lemma NoLinesNoBooks(store: Store, spending: Spending, w: WalletId)
    requires CreditsOk([], store) && DebitsOk([], spending)
    ensures CreditsOf(store, w) == map[] && ChargesOf(spending, w) == map[]
  {
    forall k | k in store.decisions ensures store.decisions[k].Quarantined? {
      assert store.decisions[k].Credited? ==> CreditLine([], store.identities, store.decisions[k]);
    }
    forall k | k in spending.unlocks ensures spending.unlocks[k].entry.None? {
      assert ReceiptOk([], k.0, spending.unlocks[k]);
    }
  }

  /** The last line, a purchase, is what its decision credited. */
  lemma LastPurchaseCounts(ledger: seq<Entry>, store: Store, k: TxKey, w: WalletId)
    requires CreditsOk(ledger, store) && ledger != [] && Backs(store.decisions, k, |ledger| - 1)
    ensures var line := ledger[|ledger| - 1];
            Total(CreditsOf(store, w)) ==
              Total(CreditsOf(store.(decisions := store.decisions - {k}), w))
              + (if line.wallet == w then line.amount else 0)
  {
    CreditsWithout(store, w, k);
    assert CreditLine(ledger, store.identities, store.decisions[k]);
  }

  /** The last line, an unlock, is what its receipt charged. */
  lemma LastUnlockCounts(ledger: seq<Entry>, spending: Spending, k: RequestKey, w: WalletId)
    requires DebitsOk(ledger, spending) && ledger != [] && Explains(spending.unlocks, k, |ledger| - 1)
    ensures var line := ledger[|ledger| - 1];
            Total(ChargesOf(spending, w)) ==
              Total(ChargesOf(spending.(unlocks := spending.unlocks - {k}), w))
              - (if line.wallet == w then line.amount else 0)
  {
    ChargesWithout(spending, w, k);
    assert ReceiptOk(ledger, k.0, spending.unlocks[k]);
  }

  /** Matched credits and debits determine every balance. The proof unwinds the ledger line by line,
      removing with each purchase the decision and with each unlock the receipt it belongs to. */
  lemma {:induction false} MatchedBooksBalance(ledger: seq<Entry>, store: Store, spending: Spending, w: WalletId)
    requires CreditsOk(ledger, store) && DebitsOk(ledger, spending)
    ensures Balance(ledger, w) == Total(CreditsOf(store, w)) - Total(ChargesOf(spending, w)) + Corrections(ledger, w)
    decreases |ledger|
  {
    if ledger == [] {
      NoLinesNoBooks(store, spending, w);
    } else {
      var last := |ledger| - 1;
      WithoutLastLine(ledger, store, spending);
      match ledger[last].kind
      case Purchase =>
        var k :| Backs(store.decisions, k, last);
        WithoutLastPurchase(ledger, store, k);
        MatchedBooksBalance(ledger[..last], store.(decisions := store.decisions - {k}), spending, w);
        LastPurchaseCounts(ledger, store, k, w);
      case Unlock =>
        var k :| Explains(spending.unlocks, k, last);
        WithoutLastUnlock(ledger, spending, k);
        MatchedBooksBalance(ledger[..last], store, spending.(unlocks := spending.unlocks - {k}), w);
        LastUnlockCounts(ledger, spending, k, w);
      case Correction =>
        MatchedBooksBalance(ledger[..last], store, spending, w);
    }
  }

  /** In every state of every run from the empty database, every wallet's balance is what was credited
      to it, less what it was charged, plus corrections, and lies between zero and the safe limit. */
  lemma CoinsAreConserved(s: Tables, steps: seq<Step>, w: WalletId)
    requires Initial(s)
    ensures var later := Run(s, steps);
            && Balance(later.ledger, w) ==
                 Total(CreditsOf(later.store, w)) - Total(ChargesOf(later.spending, w)) + Corrections(later.ledger, w)
            && 0 <= Balance(later.ledger, w) <= MAX_BALANCE_COINS
  {
    InitialIsOk(s);
    RunKeepsInv(s, steps);
    var later := Run(s, steps);
    MatchedBooksBalance(later.ledger, later.store, later.spending, w);
    SolventNow(later.ledger, w);
  }

  /** In every state of every run from the empty database each purchase line belongs to exactly one
      credited decision and each unlock line to exactly one charged receipt, with its wallet and amount. */
  lemma EveryLineIsAccountedFor(s: Tables, steps: seq<Step>, i: nat)
    requires Initial(s) && i < |Run(s, steps).ledger|
    ensures Run(s, steps).ledger[i].kind.Purchase? ==> exists k :: OnlyCreditOf(Run(s, steps), k, i)
    ensures Run(s, steps).ledger[i].kind.Unlock? ==> exists k :: OnlyChargeOf(Run(s, steps), k, i)
  {
    InitialIsOk(s);
    RunKeepsInv(s, steps);
    var later := Run(s, steps);
    if later.ledger[i].kind.Purchase? {
      var k :| Backs(later.store.decisions, k, i);
      assert CreditLine(later.ledger, later.store.identities, later.store.decisions[k]);
      assert OnlyCreditOf(later, k, i);
    } else if later.ledger[i].kind.Unlock? {
      var k :| Explains(later.spending.unlocks, k, i);
      assert ReceiptOk(later.ledger, k.0, later.spending.unlocks[k]);
      assert OnlyChargeOf(later, k, i);
    }
  }

  ghost predicate OnlyCreditOf(s: Tables, k: TxKey, i: nat)
    requires i < |s.ledger|
  {
    && Backs(s.store.decisions, k, i)
    && s.ledger[i].amount == s.store.decisions[k].coins && s.ledger[i].reference == s.store.decisions[k].receipt
    && s.store.decisions[k].identity in s.store.identities
    && s.ledger[i].wallet == s.store.identities[s.store.decisions[k].identity]
    && forall l :: Backs(s.store.decisions, l, i) ==> l == k
  }

  ghost predicate OnlyChargeOf(s: Tables, k: RequestKey, i: nat)
    requires i < |s.ledger|
  {
    && Explains(s.spending.unlocks, k, i)
    && s.ledger[i].wallet == k.0 && s.ledger[i].amount == 0 - s.spending.unlocks[k].charged
    && forall l :: Explains(s.spending.unlocks, l, i) ==> l == k
  }
}
