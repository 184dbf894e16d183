/** Coin packs: what a buyer is shown, and what a later payment is credited.
    Instants are microseconds; a payment time arrives in milliseconds. */
module Packs {
  import opened Wrappers
  import opened Registry

  type Instant = int

  const HONOR_WINDOW: Instant := 24 * 3600 * 1_000_000

  /** What staff may still change about a pack, apart from its place and its retirement. */
  datatype Display = Display(badge: string, highlighted: bool)

  datatype Pack = Pack(
    product: ProductId,
    base: nat,
    bonus: nat,  // hundredths of the base coins
    coins: int,
    sortOrder: nat,
    display: Display,
    startsAt: Option<Instant>,
    endsAt: Option<Instant>,
    active: bool,
    retiredAt: Option<Instant>,
    createdAt: Instant)

  /** `bonus` is in per cent. */
  datatype Offer = Offer(product: Product, coins: int, order: nat, bonus: nat, display: Display)

  function PackCoins(base: nat, bonus: nat): nat {
    base + base * bonus / 100
  }

  // Rows and their guards

  /** The table's check constraints. */
  predicate Storable(pack: Pack) {
    && pack.base <= pack.coins <= MAX_COINS
    && pack.bonus <= 200
    && (pack.startsAt.Some? && pack.endsAt.Some? ==> pack.startsAt.value < pack.endsAt.value)
    && (pack.active <==> pack.retiredAt.None?)
  }

  /** Saving computes the coins and stamps a retirement once. */
  function Saved(pack: Pack, now: Instant): Pack {
    pack.(
      coins := PackCoins(pack.base, pack.bonus),
      retiredAt := if !pack.active && pack.retiredAt.None? then Some(now) else pack.retiredAt)
  }

  /** The row trigger: amounts, product and schedule are fixed, and retirement is final. */
  predicate UpdateAllowed(row: Pack, changed: Pack) {
    && changed.product == row.product
    && changed.base == row.base
    && changed.bonus == row.bonus
    && changed.coins == row.coins
    && changed.startsAt == row.startsAt
    && changed.endsAt == row.endsAt
    && changed.createdAt == row.createdAt
    && (row.retiredAt.Some? ==> !changed.active && changed.retiredAt == row.retiredAt)
  }

  function AddPack(
    packs: seq<Pack>, product: ProductId, base: nat, bonus: nat, sortOrder: nat, display: Display,
    startsAt: Option<Instant>, endsAt: Option<Instant>, active: bool, now: Instant): Option<seq<Pack>>
  {
    var pack := Saved(Pack(product, base, bonus, 0, sortOrder, display, startsAt, endsAt, active, None, now), now);
    if Storable(pack) then Some(packs + [pack]) else None
  }

  function EditPack(packs: seq<Pack>, id: nat, edited: Pack, now: Instant): Option<seq<Pack>> {
    if id >= |packs| then None
    else
      var pack := Saved(edited, now);
      // The form never posts a retirement time: the loaded row keeps its own.
      if Storable(pack) && UpdateAllowed(packs[id], pack) && edited.retiredAt == packs[id].retiredAt
      then Some(packs[id := pack]) else None
  }

  // Reads

  predicate Live(pack: Pack, now: Instant) {
    && pack.active
    && (pack.startsAt.Some? ==> pack.startsAt.value <= now)
    && (pack.endsAt.Some? ==> now < pack.endsAt.value)
  }

  predicate LiveFor(packs: seq<Pack>, product: ProductId, now: Instant, id: nat) {
    id < |packs| && packs[id].product == product && Live(packs[id], now)
  }

  /** The live pack with the most coins, the oldest row among equals. */
  function Best(packs: seq<Pack>, product: ProductId, now: Instant): (best: Option<nat>)
    ensures best.Some? ==> LiveFor(packs, product, now, best.value)
    ensures best.Some? ==> forall id: nat :: LiveFor(packs, product, now, id) ==>
      packs[id].coins < packs[best.value].coins || (packs[id].coins == packs[best.value].coins && best.value <= id)
    ensures best.None? ==> forall id: nat :: !LiveFor(packs, product, now, id)
  {
    if packs == [] then None
    else
      var last := |packs| - 1;
      var earlier := Best(packs[..last], product, now);
      assert forall id: nat :: LiveFor(packs, product, now, id) <==>
        LiveFor(packs[..last], product, now, id) || (id == last && LiveFor(packs, product, now, last));
      if LiveFor(packs, product, now, last) && (earlier.None? || packs[earlier.value].coins < packs[last].coins)
      then Some(last) else earlier
  }

  function OfferFor(packs: seq<Pack>, product: Product, now: Instant): Option<Offer> {
    var best := Best(packs, product.product, now);
    if best.Some?
    then
      var pack := packs[best.value];
      Some(Offer(product, pack.coins, pack.sortOrder, pack.bonus, pack.display))
    else if forall pack :: pack in packs ==> pack.product != product.product
    then Some(Offer(product, product.coins, 0, 0, Display("", false)))
    else None
  }

  predicate NotAfter(a: Offer, b: Offer) {
    a.order < b.order || (a.order == b.order && a.coins <= b.coins)
  }

  /** One step of a stable sort on (order, coins). */
  function Insert(offers: seq<Offer>, offer: Offer): (r: seq<Offer>)
    ensures multiset(r) == multiset(offers) + multiset{offer}
  {
    if offers == [] || NotAfter(offers[|offers| - 1], offer)
    then offers + [offer]
    else
      assert offers == offers[..|offers| - 1] + [offers[|offers| - 1]];
      Insert(offers[..|offers| - 1], offer) + [offers[|offers| - 1]]
  }

  ghost predicate Sorted(offers: seq<Offer>) {
    forall i, j :: 0 <= i < j < |offers| ==> NotAfter(offers[i], offers[j])
  }

  lemma {:induction false} InsertKeepsSorted(offers: seq<Offer>, offer: Offer)
    requires Sorted(offers)
    ensures Sorted(Insert(offers, offer))
  {
    if offers == [] || NotAfter(offers[|offers| - 1], offer) {
    } else {
      var last := |offers| - 1;
      InsertKeepsSorted(offers[..last], offer);
      var r := Insert(offers[..last], offer);
      forall i | 0 <= i < |r| ensures NotAfter(r[i], offers[last]) {
        assert r[i] in multiset(r);
        assert r[i] == offer || r[i] in offers[..last];
      }
    }
  }

  predicate HasKey(offer: Offer, order: nat, coins: int) {
    offer.order == order && offer.coins == coins
  }

  /** The offers of one sort key, in their order. */
  function WithKey(offers: seq<Offer>, order: nat, coins: int): seq<Offer> {
    if offers == [] then []
    else
      var last, earlier := offers[|offers| - 1], WithKey(offers[..|offers| - 1], order, coins);
      if HasKey(last, order, coins) then earlier + [last] else earlier
  }

  lemma KeyedAppended(offers: seq<Offer>, offer: Offer, order: nat, coins: int)
    ensures WithKey(offers + [offer], order, coins) ==
            if HasKey(offer, order, coins) then WithKey(offers, order, coins) + [offer]
            else WithKey(offers, order, coins)
  {
    assert (offers + [offer])[..|offers|] == offers;
  }

  /** Inserting puts an offer behind the others of its key. */
  lemma {:induction false} InsertIsStable(offers: seq<Offer>, offer: Offer, order: nat, coins: int)
    ensures WithKey(Insert(offers, offer), order, coins) == WithKey(offers + [offer], order, coins)
  {
    if offers == [] || NotAfter(offers[|offers| - 1], offer) {
    } else {
      var earlier, last := offers[..|offers| - 1], offers[|offers| - 1];
      assert !(HasKey(last, order, coins) && HasKey(offer, order, coins));
      InsertIsStable(earlier, offer, order, coins);
      KeyedAppended(Insert(earlier, offer), last, order, coins);
      KeyedAppended(earlier, offer, order, coins);
      KeyedAppended(offers, offer, order, coins);
    }
  }

  /** The offers of the selected products, in the order their rows are collected. */
  function Collected(packs: seq<Pack>, selected: seq<Product>, now: Instant): seq<Offer> {
    if selected == [] then []
    else
      var last := |selected| - 1;
      var offer := OfferFor(packs, selected[last], now);
      Collected(packs, selected[..last], now) + (if offer.Some? then [offer.value] else [])
  }

  lemma {:induction false} CollectedHolds(packs: seq<Pack>, selected: seq<Product>, now: Instant, offer: Offer)
    ensures offer in Collected(packs, selected, now) <==>
      exists product :: product in selected && OfferFor(packs, product, now) == Some(offer)
  {
    if selected != [] {
      var last := |selected| - 1;
      CollectedHolds(packs, selected[..last], now, offer);
      assert selected == selected[..last] + [selected[last]];
    }
  }

  lemma InsertMatches(offers: seq<Offer>, taken: seq<Offer>, offer: Offer, order: nat, coins: int)
    requires WithKey(offers, order, coins) == WithKey(taken, order, coins)
    ensures WithKey(Insert(offers, offer), order, coins) == WithKey(taken + [offer], order, coins)
  {
    InsertIsStable(offers, offer, order, coins);
    KeyedAppended(offers, offer, order, coins);
    KeyedAppended(taken, offer, order, coins);
  }

  /** A stable sort on (order, coins). */
  method SortOffers(rows: seq<Offer>) returns (offers: seq<Offer>)
    ensures multiset(offers) == multiset(rows) && Sorted(offers)
    ensures forall order, coins :: WithKey(offers, order, coins) == WithKey(rows, order, coins)
  {
    offers := [];
    for i := 0 to |rows|
      invariant Sorted(offers) && multiset(offers) == multiset(rows[..i])
      invariant forall order, coins :: WithKey(offers, order, coins) == WithKey(rows[..i], order, coins)
    {
      assert rows[..i + 1] == rows[..i] + [rows[i]];
      forall order, coins
        ensures WithKey(Insert(offers, rows[i]), order, coins) == WithKey(rows[..i + 1], order, coins)
      {
        InsertMatches(offers, rows[..i], rows[i], order, coins);
      }
      InsertKeepsSorted(offers, rows[i]);
      offers := Insert(offers, rows[i]);
      assert rows[..i + 1] == rows[..i] + [rows[i]];
    }
    assert rows[..|rows|] == rows;
  }

  /** The catalogue lists exactly the offers of the selected products, by sort order and then coins. */
  method CatalogOffers(packs: seq<Pack>, selected: seq<Product>, now: Instant) returns (offers: seq<Offer>)
    ensures multiset(offers) == multiset(Collected(packs, selected, now))
    ensures Sorted(offers)
    ensures forall order, coins ::
              WithKey(offers, order, coins) == WithKey(Collected(packs, selected, now), order, coins)
    ensures forall offer :: offer in offers <==>
      exists product :: product in selected && OfferFor(packs, product, now) == Some(offer)
  {
    var rows: seq<Offer> := [];
    for i := 0 to |selected|
      invariant rows == Collected(packs, selected[..i], now)
    {
      assert selected[..i + 1][..i] == selected[..i];
      var offer := OfferFor(packs, selected[i], now);
      if offer.Some? {
        rows := rows + [offer.value];
      }
    }
    assert selected[..|selected|] == selected;
    offers := SortOffers(rows);
    forall offer ensures offer in offers <==>
      exists product :: product in selected && OfferFor(packs, product, now) == Some(offer)
    {
      CollectedHolds(packs, selected, now, offer);
      assert offer in offers <==> offer in multiset(offers);
      assert offer in rows <==> offer in multiset(rows);
    }
  }

  function PaidAt(purchasedAtMs: nat, now: Instant): Instant {
    if purchasedAtMs * 1000 < now then purchasedAtMs * 1000 else now
  }

  predicate Honored(pack: Pack, product: ProductId, paidAt: Instant) {
    var windowStart := paidAt - HONOR_WINDOW;
    && (pack.startsAt.Some? ==> pack.startsAt.value <= paidAt)
    && (pack.endsAt.Some? ==> windowStart < pack.endsAt.value)
    && (pack.retiredAt.Some? ==> windowStart < pack.retiredAt.value)
    && pack.createdAt <= paidAt
    && pack.product == product
  }

  /** The largest of a floor and the coins of every honoured pack. */
  function MostHonored(packs: seq<Pack>, product: ProductId, paidAt: Instant, floor: int): (most: int)
    ensures most >= floor
    ensures forall pack :: pack in packs && Honored(pack, product, paidAt) ==> pack.coins <= most
    ensures most == floor || exists pack :: pack in packs && Honored(pack, product, paidAt) && pack.coins == most
  {
    if packs == [] then floor
    else
      var rest := MostHonored(packs[1..], product, paidAt, floor);
      if Honored(packs[0], product, paidAt) && packs[0].coins > rest then packs[0].coins else rest
  }

  function CreditedCoins(packs: seq<Pack>, product: Product, purchasedAtMs: nat, now: Instant): int {
    MostHonored(packs, product.product, PaidAt(purchasedAtMs, now), product.coins)
  }

  // What any history of pack edits keeps

  ghost predicate Sound(packs: seq<Pack>, clock: Instant) {
    forall i :: 0 <= i < |packs| ==>
      && Storable(packs[i])
      && packs[i].coins == PackCoins(packs[i].base, packs[i].bonus)
      && packs[i].createdAt <= clock
      && (packs[i].retiredAt.Some? ==> packs[i].retiredAt.value <= clock)
  }

  /** `later` may follow `earlier`, the table at instant `since`: no row is lost or rewritten, a
      retirement is stamped no earlier than `since`, and new rows were created no earlier. */
  ghost predicate Evolved(earlier: seq<Pack>, since: Instant, later: seq<Pack>) {
    && |earlier| <= |later|
    && (forall i :: 0 <= i < |earlier| ==>
          && UpdateAllowed(earlier[i], later[i])
          && (earlier[i].retiredAt.None? && later[i].retiredAt.Some? ==> since <= later[i].retiredAt.value))
    && (forall i :: |earlier| <= i < |later| ==> since <= later[i].createdAt)
  }

  lemma AddPackEvolves(
    packs: seq<Pack>, product: ProductId, base: nat, bonus: nat, sortOrder: nat, display: Display,
    startsAt: Option<Instant>, endsAt: Option<Instant>, active: bool, now: Instant)
    requires Sound(packs, now)
    ensures var added := AddPack(packs, product, base, bonus, sortOrder, display, startsAt, endsAt, active, now);
            added.Some? ==> Sound(added.value, now) && Evolved(packs, now, added.value)
  {
  }

  lemma EditPackEvolves(packs: seq<Pack>, id: nat, edited: Pack, now: Instant)
    requires Sound(packs, now)
    ensures var table := EditPack(packs, id, edited, now);
            table.Some? ==> Sound(table.value, now) && Evolved(packs, now, table.value)
  {
  }

  lemma EvolvedIsTransitive(a: seq<Pack>, since: Instant, b: seq<Pack>, between: Instant, c: seq<Pack>)
    requires Evolved(a, since, b) && Evolved(b, between, c) && since <= between
    ensures Evolved(a, since, c)
  {
  }

  // The promises

  /** A payment made at or after an offer was shown, and less than the honour window later, is
      credited at least the coins shown, whatever was added or retired in between. */
  lemma ShownCoinsAreCredited(
    before: seq<Pack>, shownAt: Instant, after: seq<Pack>, product: Product, purchasedAtMs: nat, now: Instant)
    requires Sound(before, shownAt) && Evolved(before, shownAt, after)
    requires shownAt <= now
    requires shownAt <= purchasedAtMs * 1000 < shownAt + HONOR_WINDOW
    ensures var offer := OfferFor(before, product, shownAt);
            offer.Some? ==> offer.value.coins <= CreditedCoins(after, product, purchasedAtMs, now)
  {
    var best := Best(before, product.product, shownAt);
    if best.Some? {
      assert UpdateAllowed(before[best.value], after[best.value]);
      assert Honored(after[best.value], product.product, PaidAt(purchasedAtMs, now));
      assert after[best.value] in after;
    }
  }

  /** The window is exact: any payment a full window later, or later still, may be credited less than was
      shown. */
  lemma HonorWindowIsTight(ms: nat, now: Instant)
    requires HONOR_WINDOW <= ms * 1000 && HONOR_WINDOW <= now
    ensures exists before: seq<Pack>, after, product, shown ::
      && Sound(before, 0) && Evolved(before, 0, after)
      && OfferFor(before, product, 0) == Some(shown)
      && CreditedCoins(after, product, ms, now) < shown.coins
  {
    var product := Product("app", "application", "p", 1, "PLAY_STORE", "SANDBOX");
    var pack := Pack("p", 5, 0, 5, 0, Display("", false), None, None, true, None, 0);
    var retired := pack.(active := false, retiredAt := Some(0));
    var before, after := [pack], [retired];
    assert LiveFor(before, "p", 0, 0);
    assert Best(before, "p", 0) == Some(0);
    assert !Honored(retired, "p", PaidAt(ms, now));
    assert CreditedCoins(after, product, ms, now) < Offer(product, 5, 0, 0, Display("", false)).coins;
    assert OfferFor(before, product, 0) == Some(Offer(product, 5, 0, 0, Display("", false)));
    assert Evolved(before, 0, after);
  }

  lemma HonoredStays(before: seq<Pack>, clock: Instant, after: seq<Pack>, product: ProductId, paidAt: Instant)
    requires Sound(before, clock) && Evolved(before, clock, after) && paidAt < clock
    ensures forall i :: 0 <= i < |before| ==>
              && (Honored(before[i], product, paidAt) <==> Honored(after[i], product, paidAt))
              && before[i].coins == after[i].coins
  {
    forall i | 0 <= i < |before|
      ensures Honored(before[i], product, paidAt) <==> Honored(after[i], product, paidAt)
      ensures before[i].coins == after[i].coins
    {
      assert UpdateAllowed(before[i], after[i]);
    }
  }

  lemma {:induction false} SameMost(
    before: seq<Pack>, after: seq<Pack>, product: ProductId, paidAt: Instant, floor: int)
    requires |before| <= |after|
    requires forall i :: 0 <= i < |before| ==>
               && (Honored(before[i], product, paidAt) <==> Honored(after[i], product, paidAt))
               && before[i].coins == after[i].coins
    requires forall i :: |before| <= i < |after| ==> !Honored(after[i], product, paidAt)
    ensures MostHonored(before, product, paidAt, floor) == MostHonored(after, product, paidAt, floor)
  {
    if after == [] {
    } else if before == [] {
      SameMost([], after[1..], product, paidAt, floor);
    } else {
      SameMost(before[1..], after[1..], product, paidAt, floor);
    }
  }

  /** Once a payment lies strictly in the past its amount no longer depends on when it is processed. */
  lemma PastPaymentIsSettled(
    before: seq<Pack>, firstAt: Instant, after: seq<Pack>, secondAt: Instant, product: Product, purchasedAtMs: nat)
    requires Sound(before, firstAt) && Evolved(before, firstAt, after)
    requires purchasedAtMs * 1000 < firstAt <= secondAt
    ensures CreditedCoins(before, product, purchasedAtMs, firstAt)
         == CreditedCoins(after, product, purchasedAtMs, secondAt)
  {
    HonoredStays(before, firstAt, after, product.product, purchasedAtMs * 1000);
    SameMost(before, after, product.product, purchasedAtMs * 1000, product.coins);
  }

  /** A credit never exceeds what a ledger line may carry, nor falls below the registry floor. */
  lemma CreditedCoinsInRange(packs: seq<Pack>, clock: Instant, product: Product, purchasedAtMs: nat, now: Instant)
    requires Sound(packs, clock) && Acceptable(Row(product, true))
    ensures product.coins <= CreditedCoins(packs, product, purchasedAtMs, now) <= MAX_COINS
  {
  }
}
