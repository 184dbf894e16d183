/** Spending coins: the unlock of an episode, and the resolution of an interrupted unlock. */
module Unlocks {
  import opened Wrappers
  import opened Policy
  import opened Tables

  /** One unlock request. `wallet` and `reference` are the identifiers drawn for rows it may create;
      `stillEligible` is the eligibility read again after the wallet lock. */
  datatype Request = Request(
    who: ProfileRef, id: RequestId, terms: Terms, wallet: WalletId, reference: Uuid, stillEligible: bool)

  datatype Resolution = Completed(receipt: Receipt) | Cancelled(terms: Terms)

  /** The key of a request under the account's existing wallet. */
  function KeyIn(s: Tables, who: ProfileId, id: RequestId): Option<RequestKey> {
    if who in s.wallets.walletOf then Some((s.wallets.walletOf[who], id)) else None
  }

  function Completion(s: Tables, who: ProfileId, id: RequestId): Option<Receipt> {
    var key := KeyIn(s, who, id);
    if key.Some? && key.value in s.spending.unlocks then Some(s.spending.unlocks[key.value]) else None
  }

  predicate IsCancelled(s: Tables, who: ProfileId, id: RequestId) {
    var key := KeyIn(s, who, id);
    key.Some? && key.value in s.spending.cancellations
  }

  /** Why a request cannot go on to the wallet. */
  function Refused(s: Tables, r: Request): Option<Error> {
    var existing := Completion(s, r.who.id, r.id);
    if !Current(s, r.who) then Some(AuthenticationFailed)
    else if !s.settings.spendingEnabled then Some(CoinUnavailable)
    else if IsCancelled(s, r.who.id, r.id) then Some(CoinUnavailable)
    else if existing.Some? && existing.value.terms != r.terms then Some(CoinUnavailable)
    else if r.terms.episode !in s.catalog.episodes || !s.catalog.episodes[r.terms.episode].eligible then Some(NotFound)
    else if !WalletReady(s, r.who.id, r.wallet) then Some(Integrity)
    else if !r.stillEligible then Some(NotFound)
    else None
  }

  datatype Charge = Replay | NoCharge | Debit | Denied(error: Error)

  /** What an admitted request costs. */
  function Assess(s: Tables, r: Request): Charge
    requires r.terms.episode in s.catalog.episodes
  {
    var episode := s.catalog.episodes[r.terms.episode];
    var held := Held(s, r.who.id, r.terms.episode);
    var access := Authorize(r.terms.episode, episode, s.settings.adsMode, r.stillEligible, true, held);
    var policy := ResolvePolicy(r.terms.episode, episode, s.settings.adsMode);
    var s1, w := WithWallet(s, r.who.id, r.wallet), WalletFor(s, r.who.id, r.wallet);
    if Completion(s, r.who.id, r.id).Some?
    then if access.Grant? then Replay else Denied(CoinUnavailable)
    else if access.Grant? then NoCharge
    else if (policy.mode.Coin? || policy.mode.Both?)
            && policy.price == Some(r.terms.price) && policy.version == r.terms.version
            && Balance(s.ledger, w) >= r.terms.price
    then if Postable(s1, w, r.reference, Unlock, 0 - r.terms.price) then Debit else Denied(Integrity)
    else Denied(CoinUnavailable)
  }

  /** The rows of a completed request: its receipt, and for a debit also the line and the entitlement. */
  function Completing(s: Tables, r: Request, debit: bool): Tables {
    var s1, w := WithWallet(s, r.who.id, r.wallet), WalletFor(s, r.who.id, r.wallet);
    s1.(
      ledger := if debit then s.ledger + [Entry(w, r.reference, Unlock, 0 - r.terms.price, s.clock)] else s.ledger,
      spending := s.spending.(
        entitlements :=
          if debit then s.spending.entitlements[(r.who.id, r.terms.episode) := Coins] else s.spending.entitlements,
        unlocks := s.spending.unlocks[(w, r.id) := ReceiptOf(s, r, debit)]))
  }

  function ReceiptOf(s: Tables, r: Request, debit: bool): Receipt {
    Receipt(r.terms, if debit then r.terms.price else 0, if debit then Some(|s.ledger|) else None)
  }

  /** One unlock, as one transaction; the answer is its receipt and the balance after it. */
  function UnlockEpisode(s: Tables, r: Request): Result<(Receipt, int)> {
    if Refused(s, r).Some? then Raised(Refused(s, r).value)
    else
      var charge := Assess(s, r);
      if charge.Denied? then Raised(charge.error)
      else if charge.Replay?
      then Done((Completion(s, r.who.id, r.id).value, Balance(s.ledger, s.wallets.walletOf[r.who.id])), s)
      else
        var after := Completing(s, r, charge.Debit?);
        Done((ReceiptOf(s, r, charge.Debit?), Balance(after.ledger, WalletFor(s, r.who.id, r.wallet))), after)
  }

  /** Why a request cannot be resolved. */
  function Unresolvable(s: Tables, r: Request): Option<Error> {
    var key := (WalletFor(s, r.who.id, r.wallet), r.id);
    if !Current(s, r.who) then Some(AuthenticationFailed)
    else if !s.settings.spendingEnabled then Some(CoinUnavailable)
    else if !WalletReady(s, r.who.id, r.wallet) then Some(Integrity)
    else if key in s.spending.unlocks
    then if s.spending.unlocks[key].terms == r.terms then None else Some(CoinUnavailable)
    else if key in s.spending.cancellations
    then if s.spending.cancellations[key] == r.terms then None else Some(CoinUnavailable)
    else if 1 <= r.terms.price <= MAX_ENTRY_COINS then None
    else Some(Integrity)
  }

  /** Returns committed history, or durably prevents this exact request from committing. */
  function ResolveUnlock(s: Tables, r: Request): Result<(Resolution, int)> {
    if Unresolvable(s, r).Some? then Raised(Unresolvable(s, r).value)
    else
      var w := WalletFor(s, r.who.id, r.wallet);
      var completed := (w, r.id) in s.spending.unlocks;
      var answer := if completed then Completed(s.spending.unlocks[(w, r.id)]) else Cancelled(r.terms);
      Done((answer, Balance(s.ledger, w)),
           WithWallet(s, r.who.id, r.wallet).(
             spending := if completed then s.spending
                         else s.spending.(cancellations := s.spending.cancellations[(w, r.id) := r.terms])))
  }

  // What a request does, stated without following its steps

  /** The account may be charged: the request is new, the episode is locked for it, and the terms it
      confirmed are the current ones and affordable. */
  ghost predicate Chargeable(s: Tables, r: Request) {
    && Current(s, r.who) && s.settings.spendingEnabled
    && !IsCancelled(s, r.who.id, r.id) && Completion(s, r.who.id, r.id).None?
    && r.terms.episode in s.catalog.episodes
    && var episode := s.catalog.episodes[r.terms.episode];
    && episode.eligible && r.stillEligible
    && WalletReady(s, r.who.id, r.wallet)
    && Held(s, r.who.id, r.terms.episode).None?
    && (EffectiveMode(episode).Coin? || EffectiveMode(episode).Both?)
    && episode.price == Some(r.terms.price)
    && ResolvePolicy(r.terms.episode, episode, s.settings.adsMode).version == r.terms.version
    && Balance(s.ledger, WalletFor(s, r.who.id, r.wallet)) >= r.terms.price
    && Postable(
         WithWallet(s, r.who.id, r.wallet), WalletFor(s, r.who.id, r.wallet), r.reference, Unlock, 0 - r.terms.price)
  }

  lemma AssessDebitIff(s: Tables, r: Request)
    requires Refused(s, r).None?
    ensures Assess(s, r).Debit? <==> Chargeable(s, r)
  {
  }

  /** Coins move exactly on a chargeable request, by exactly the confirmed price, together with the
      entitlement and a receipt that names the debit. */
  lemma UnlockMovesCoinsIff(s: Tables, r: Request)
    ensures var after := After(s, UnlockEpisode(s, r));
            var w := WalletFor(s, r.who.id, r.wallet);
            && (after.ledger != s.ledger <==> Chargeable(s, r))
            && (Chargeable(s, r) ==>
                  && after.ledger == s.ledger + [Entry(w, r.reference, Unlock, 0 - r.terms.price, s.clock)]
                  && after.spending.entitlements == s.spending.entitlements[(r.who.id, r.terms.episode) := Coins]
                  && after.spending.unlocks
                     == s.spending.unlocks[(w, r.id) := Receipt(r.terms, r.terms.price, Some(|s.ledger|))])
            && (!Chargeable(s, r) ==> after.spending.entitlements == s.spending.entitlements)
  {
    var line := Entry(WalletFor(s, r.who.id, r.wallet), r.reference, Unlock, 0 - r.terms.price, s.clock);
    assert |s.ledger + [line]| == |s.ledger| + 1;
    if Refused(s, r).Some? {
    } else {
      AssessDebitIff(s, r);
      match Assess(s, r)
      case Denied(_) =>
      case Replay =>
      case NoCharge =>
      case Debit =>
    }
  }

  /** The balance a charged buyer is told is the balance before less the confirmed price. */
  lemma ChargedBalance(s: Tables, r: Request)
    requires UnlockEpisode(s, r).Done? && Chargeable(s, r)
    ensures UnlockEpisode(s, r).value.1 == Balance(s.ledger, WalletFor(s, r.who.id, r.wallet)) - r.terms.price
  {
    AssessDebitIff(s, r);
    var line := Entry(WalletFor(s, r.who.id, r.wallet), r.reference, Unlock, 0 - r.terms.price, s.clock);
    assert (s.ledger + [line])[..|s.ledger|] == s.ledger;
  }

  /** A request that repeats a stored receipt changes nothing and is told that receipt, or is refused. */
  lemma ReplayChangesNothing(s: Tables, r: Request)
    requires Completion(s, r.who.id, r.id).Some?
    ensures After(s, UnlockEpisode(s, r)) == s
    ensures UnlockEpisode(s, r).Done? ==> UnlockEpisode(s, r).value.0 == Completion(s, r.who.id, r.id).value
  {
  }

  /** After a resolution the request has an outcome, and resolving it again answers the same without a
      write. A second resolution may carry other drawn identifiers. */
  lemma ResolveIsIdempotent(s: Tables, r: Request, wallet: WalletId)
    requires ResolveUnlock(s, r).Done?
    ensures var first := ResolveUnlock(s, r);
            ResolveUnlock(first.tables, r.(wallet := wallet)) == Done(first.value, first.tables)
            && first.tables.ledger == s.ledger
  {
    var first := ResolveUnlock(s, r);
    var w := WalletFor(s, r.who.id, r.wallet);
    var again := r.(wallet := wallet);
    assert WalletFor(first.tables, r.who.id, wallet) == w && WithWallet(first.tables, r.who.id, wallet) == first.tables;
    assert Unresolvable(first.tables, again).None?;
    if (w, r.id) !in s.spending.unlocks {
      assert first.tables.spending.cancellations[(w, r.id) := r.terms] == first.tables.spending.cancellations;
    }
  }

  /** A resolution never charges and never completes anything. */
  lemma ResolveNeverCharges(s: Tables, r: Request)
    ensures var after := After(s, ResolveUnlock(s, r));
            && after.ledger == s.ledger
            && after.spending.unlocks == s.spending.unlocks && after.spending.entitlements == s.spending.entitlements
  {
  }

  /** What a resolution cancels was not completed and carries the terms it was asked about. */
  lemma ResolveOnlyCancels(s: Tables, r: Request)
    ensures forall k :: k in After(s, ResolveUnlock(s, r)).spending.cancellations && k !in s.spending.cancellations ==>
              && k == (WalletFor(s, r.who.id, r.wallet), r.id)
              && After(s, ResolveUnlock(s, r)).spending.cancellations[k] == r.terms
              && k !in s.spending.unlocks
  {
  }
}
