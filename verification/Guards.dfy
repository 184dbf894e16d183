/** The triggers and constraints that guard the history tables, and that none of them ever rejects what
    the transactions write: in every reachable state they only restate what the code already ensures. */
module Guards {
  import opened Wrappers
  import opened Registry
  import opened Packs
  import opened Policy
  import opened Tables
  import opened Purchases
  import opened Unlocks
  import opened Accounts
  import opened Invariants
  import opened Protocol
  import opened Runs
  import opened Lifecycles

  /** A receipt may be inserted: its wallet has an owner, its request has no outcome, and a charge names
      its own debit, which no other receipt names. */
  ghost predicate ReceiptInsertable(s: Tables, w: WalletId, id: RequestId, r: Receipt) {
    && Attached(s, w)
    && (w, id) !in s.spending.unlocks && (w, id) !in s.spending.cancellations
    && ReceiptOk(s.ledger, w, r)
    && (r.entry.Some? ==> forall k :: !Explains(s.spending.unlocks, k, r.entry.value))
  }

  predicate CancellationInsertable(s: Tables, w: WalletId, id: RequestId, terms: Terms) {
    && Attached(s, w)
    && (w, id) !in s.spending.unlocks && (w, id) !in s.spending.cancellations
    && 1 <= terms.price <= MAX_ENTRY_COINS
  }

  /** A credited decision may be inserted: its line is a purchase of its coins in its identity's wallet
      under its own reference, and no other decision names that line. */
  ghost predicate CreditInsertable(s: Tables, key: TxKey, d: Decision) {
    && key !in s.store.decisions && d.Credited? && 1 <= d.coins <= MAX_ENTRY_COINS
    && CreditLine(s.ledger, s.store.identities, d)
    && forall k :: !Backs(s.store.decisions, k, d.entry)
  }

  /** The rows at the moment a completed request's receipt is inserted. */
  function BeforeReceipt(s: Tables, r: Request, debit: bool): Tables {
    var after := Completing(s, r, debit);
    after.(spending := after.spending.(unlocks := s.spending.unlocks))
  }

  lemma ReceiptGuardNeverRejects(s: Tables, r: Request)
    requires Inv(s) && Refused(s, r).None?
    requires Assess(s, r).NoCharge? || Assess(s, r).Debit?
    ensures var debit := Assess(s, r).Debit?;
            ReceiptInsertable(
              BeforeReceipt(s, r, debit), WalletFor(s, r.who.id, r.wallet), r.id, ReceiptOf(s, r, debit))
  {
    var debit := Assess(s, r).Debit?;
    WalletIssued(s, r.who.id, r.wallet);
    KeyIsNew(s, r);
    AssessDebitIff(s, r);
    if debit {
      PriceIsPositive(s, r);
      forall k ensures !Explains(s.spending.unlocks, k, |s.ledger|) {
        if k in s.spending.unlocks {
          assert ReceiptOk(s.ledger, k.0, s.spending.unlocks[k]);
        }
      }
    }
  }

  lemma CancellationGuardNeverRejects(s: Tables, r: Request)
    requires Inv(s) && Unresolvable(s, r).None?
    requires (WalletFor(s, r.who.id, r.wallet), r.id) !in s.spending.unlocks
    requires (WalletFor(s, r.who.id, r.wallet), r.id) !in s.spending.cancellations
    ensures CancellationInsertable(WithWallet(s, r.who.id, r.wallet), WalletFor(s, r.who.id, r.wallet), r.id, r.terms)
  {
    WalletIssued(s, r.who.id, r.wallet);
  }

  lemma CreditGuardNeverRejects(s: Tables, e: Event, receipt: Uuid)
    requires Inv(s) && Creditable(s, e, receipt)
    ensures var key := ResolvedKey(TransactionOf(e), Application(s, e).value);
            var after := Fulfill(s, e, receipt).tables;
            CreditInsertable(s.(ledger := after.ledger), key, after.store.decisions[key])
  {
    var key := ResolvedKey(TransactionOf(e), Application(s, e).value);
    var after := Fulfill(s, e, receipt).tables;
    DeliverKeepsInv(s, e, receipt);
    FulfillCreditsWorth(s, e, receipt);
    assert after.store.identities == s.store.identities by {
      IdentitiesUntouched(s, e, receipt);
    }
    assert CreditLine(after.ledger, after.store.identities, after.store.decisions[key]);
    forall k ensures !Backs(s.store.decisions, k, |s.ledger|) {
      if k in s.store.decisions && s.store.decisions[k].Credited? {
        assert CreditLine(s.ledger, s.store.identities, s.store.decisions[k]);
      }
    }
  }

  lemma IdentitiesUntouched(s: Tables, e: Event, receipt: Uuid)
    ensures After(s, Fulfill(s, e, receipt)).store.identities == s.store.identities
  {
  }

  /** No step changes a wallet's owner, except to none. */
  lemma OwnersOnlyDetach(s: Tables, step: Step)
    requires Inv(s)
    ensures forall w :: w in s.wallets.owners ==>
      && w in Next(s, step).wallets.owners
      && (Next(s, step).wallets.owners[w] == s.wallets.owners[w] || Next(s, step).wallets.owners[w].None?)
  {
    if step.Spend? {
      SpendKeepsOwners(s, step.request);
    } else if step.Resolve? {
      ResolveKeepsOwners(s, step.request);
    } else if step.DeleteAccount? {
    } else if step.Identify? {
    } else {
      OthersKeepWallets(s, step);
    }
  }

  lemma SpendKeepsOwners(s: Tables, r: Request)
    requires Inv(s)
    ensures forall w :: w in s.wallets.owners ==>
      && w in After(s, UnlockEpisode(s, r)).wallets.owners
      && After(s, UnlockEpisode(s, r)).wallets.owners[w] == s.wallets.owners[w]
  {
    if Refused(s, r).Some? {
    } else {
    }
  }

  lemma ResolveKeepsOwners(s: Tables, r: Request)
    requires Inv(s)
    ensures forall w :: w in s.wallets.owners ==>
      && w in After(s, ResolveUnlock(s, r)).wallets.owners
      && After(s, ResolveUnlock(s, r)).wallets.owners[w] == s.wallets.owners[w]
  {
    if Unresolvable(s, r).Some? {
    } else {
    }
  }

  lemma DeliveryAppends(s: Tables, e: Event, receipt: Uuid)
    ensures var after := After(s, Fulfill(s, e, receipt)).ledger; s.ledger <= after && |after| <= |s.ledger| + 1
  {
    FulfillMovesCoinsIff(s, e, receipt);
    if Creditable(s, e, receipt) {
      FulfillCreditsWorth(s, e, receipt);
    }
  }

  lemma SpendAppends(s: Tables, r: Request)
    ensures var after := After(s, UnlockEpisode(s, r)).ledger; s.ledger <= after && |after| <= |s.ledger| + 1
  {
    UnlockMovesCoinsIff(s, r);
  }

  lemma CorrectionAppends(s: Tables, w: WalletId, reference: Uuid, amount: int)
    ensures var after := Corrected(s, w, reference, amount).ledger; s.ledger <= after && |after| <= |s.ledger| + 1
  {
  }

  /** No step removes, rewrites or reorders a ledger line, or adds more than one. */
  lemma LedgerIsAppendOnly(s: Tables, step: Step)
    ensures s.ledger <= Next(s, step).ledger && |Next(s, step).ledger| <= |s.ledger| + 1
  {
    if step.Deliver? {
      DeliveryAppends(s, step.event, step.receipt);
    } else if step.Spend? {
      SpendAppends(s, step.request);
    } else if step.Correct? {
      CorrectionAppends(s, step.wallet, step.reference, step.amount);
    } else {
      OnlyMoneyStepsTouchLedger(s, step);
    }
  }
}
