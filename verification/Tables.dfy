/** The database rows of the coin-accounting protocol, and the row-level guards its triggers and
    constraints put on every writer. */
module Tables {
  import opened Wrappers
  import opened Registry
  import opened Packs
  import opened Policy

  type ProfileId = nat
  type Uid = string
  type WalletId = nat
  type RequestId = nat
  type Uuid = nat

  const MAX_ENTRY_COINS := 2147483647
  const MAX_BALANCE_COINS := 9007199254740991

  // Accounts

  datatype Profile = Profile(uid: Uid, adsConsent: bool)

  /** The profile row a request was authenticated with; it may be stale by the time it is locked. */
  datatype ProfileRef = ProfileRef(id: ProfileId, uid: Uid)

  // Wallet

  datatype Kind = Purchase | Unlock | Correction

  datatype Entry = Entry(wallet: WalletId, reference: Uuid, kind: Kind, amount: int, createdAt: Instant)

  /** The terms a request confirmed; a replay must repeat them. */
  datatype Terms = Terms(episode: EpisodeId, version: Version, price: nat)

  /** `entry` is the ledger line of the debit, by its position in the append-only ledger. */
  datatype Receipt = Receipt(terms: Terms, charged: nat, entry: Option<nat>)

  type RequestKey = (WalletId, RequestId)

  // Store deliveries

  datatype EventType = NonRenewingPurchase | Cancellation | Refund | OtherType(name: string)

  /** The claimed owner: an identifier in canonical spelling, or any other text. */
  datatype Owner = Canonical(id: Uuid) | Malformed(text: string)

  /** A normalized delivery. Digests are injective, so the event's fingerprint is the event itself. */
  datatype Event = Event(
    id: string,
    app: AppId,
    store: string,
    environment: string,
    transaction: string,
    product: ProductId,
    owner: Owner,
    kind: EventType,
    quantityValid: bool,
    identityValid: bool,
    purchasedAtMs: nat,
    reportedAtMs: nat)

  datatype EventKey = EventKey(app: AppId, id: string)

  /** A store transaction as one provider app reports it. */
  datatype Transaction = Transaction(app: AppId, store: string, environment: string, id: string)

  /** The unique key of a decision. The two digests hash four-element lists; that a raw list never
      equals a resolved one is assumed by giving them different constructors. */
  datatype TxKey = Raw(transaction: Transaction)
                 | Resolved(application: ApplicationId, store: string, environment: string, id: string)

  datatype Claim = Claim(key: TxKey, product: ProductId, owner: Owner, purchasedAtMs: nat)

  datatype Reason = VerifiedPurchase | EventConflict | UnsupportedScope | RefundBeforeCredit | RefundAfterCredit
                  | UnsupportedEvent | InvalidQuantity | IdentityConflict | UnknownOrDeletedOwner | TransactionConflict

  datatype Decision = Credited(claim: Claim, receipt: Uuid, identity: Uuid, entry: nat, coins: nat, product: Product)
                    | Quarantined(claim: Claim, reason: Reason)

  datatype Status = IsCredited | IsQuarantined

  datatype EventRow = EventRow(decision: TxKey, status: Status, reason: Reason)

  function KeyOf(e: Event): EventKey { EventKey(e.app, e.id) }

  function TransactionOf(e: Event): Transaction { Transaction(e.app, e.store, e.environment, e.transaction) }

  function RawKey(e: Event): TxKey { Raw(TransactionOf(e)) }

  function ResolvedKey(t: Transaction, application: ApplicationId): TxKey {
    Resolved(application, t.store, t.environment, t.id)
  }

  function ClaimOf(e: Event, key: TxKey): Claim { Claim(key, e.product, e.owner, e.purchasedAtMs) }

  // Rewards

  datatype Granted = Granted(at: Instant, transaction: string, timestamp: Instant)

  datatype Intent = Intent(
    profile: ProfileId, episode: EpisodeId, request: RequestId, user: Uuid, adUnit: string,
    version: Option<Version>, createdAt: Instant, expiresAt: Instant, granted: Option<Granted>)

  // Everything together

  datatype Settings = Settings(
    registry: Option<seq<Product>>,  // None: the configured registry does not load
    purchasesEnabled: bool,
    spendingEnabled: bool,
    adsMode: AdsMode,
    adUnit: string)

  datatype People = People(profiles: map<ProfileId, Profile>, nextProfile: ProfileId, deletions: set<Uid>)

  /** `withdrawn` holds the identifiers of deleted episodes, which are never issued again. */
  datatype Catalog = Catalog(episodes: map<EpisodeId, Episode>, withdrawn: set<EpisodeId>)

  /** `walletOf` is the unique index on the owner column. */
  datatype Wallets = Wallets(owners: map<WalletId, Option<ProfileId>>, walletOf: map<ProfileId, WalletId>)

  datatype Spending = Spending(
    unlocks: map<RequestKey, Receipt>,
    cancellations: map<RequestKey, Terms>,
    entitlements: map<(ProfileId, EpisodeId), Source>)

  datatype Store = Store(
    identities: map<Uuid, WalletId>,
    bindings: map<AppId, ApplicationId>,
    decisions: map<TxKey, Decision>,
    events: map<Event, EventRow>)

  /** Intents by the opaque value a callback carries; `requests` is the unique index on account and request. */
  datatype Ads = Ads(intents: map<Uuid, Intent>, requests: map<(ProfileId, RequestId), Uuid>)

  datatype Tables = Tables(
    clock: Instant,
    settings: Settings,
    packs: seq<Pack>,
    people: People,
    catalog: Catalog,
    wallets: Wallets,
    ledger: seq<Entry>,
    spending: Spending,
    store: Store,
    ads: Ads)

  datatype Error = AuthenticationFailed | PurchaseUnavailable | Misconfigured | CoinUnavailable | NotFound
                 | RewardUnavailable | InvalidCallback | PermissionDenied
                 | ReauthenticationRequired | Revoked | Integrity

  /** A transaction either commits new tables or raises and leaves no trace. */
  datatype Result<+T> = Done(value: T, tables: Tables) | Raised(error: Error)

  function After<T>(s: Tables, r: Result<T>): Tables {
    if r.Done? then r.tables else s
  }

  // Shared reads

  /** The profile lock succeeds: the row is still there under the same identity and no deletion was requested. */
  predicate Current(s: Tables, who: ProfileRef) {
    who.id in s.people.profiles && s.people.profiles[who.id].uid == who.uid && who.uid !in s.people.deletions
  }

  predicate Attached(s: Tables, w: WalletId) {
    w in s.wallets.owners && s.wallets.owners[w].Some?
  }

  function Held(s: Tables, p: ProfileId, episode: EpisodeId): Option<Source> {
    if (p, episode) in s.spending.entitlements then Some(s.spending.entitlements[(p, episode)]) else None
  }

  function Balance(ledger: seq<Entry>, w: WalletId): int {
    if ledger == [] then 0
    else
      var last := ledger[|ledger| - 1];
      Balance(ledger[..|ledger| - 1], w) + (if last.wallet == w then last.amount else 0)
  }

  // Row guards

  predicate Admissible(kind: Kind, amount: int) {
    && -MAX_ENTRY_COINS <= amount <= MAX_ENTRY_COINS
    && (kind.Purchase? ==> amount > 0)
    && (kind.Unlock? ==> amount < 0)
    && amount != 0
  }

  predicate Unused(ledger: seq<Entry>, reference: Uuid) {
    forall i :: 0 <= i < |ledger| ==> ledger[i].reference != reference
  }

  /** A ledger insert passes the sign and size constraints, the unique reference, the attached-wallet
      guard and the balance guard. */
  predicate Postable(s: Tables, w: WalletId, reference: Uuid, kind: Kind, amount: int) {
    && Admissible(kind, amount)
    && Unused(s.ledger, reference)
    && Attached(s, w)
    && 0 <= Balance(s.ledger, w) + amount <= MAX_BALANCE_COINS
  }

  function Posted(s: Tables, w: WalletId, reference: Uuid, kind: Kind, amount: int): Tables {
    s.(ledger := s.ledger + [Entry(w, reference, kind, amount, s.clock)])
  }

  /** Get-or-create of an account's wallet; a new identifier already in use violates the primary key. */
  predicate WalletReady(s: Tables, p: ProfileId, issued: WalletId) {
    p in s.wallets.walletOf || issued !in s.wallets.owners
  }

  function WalletFor(s: Tables, p: ProfileId, issued: WalletId): WalletId {
    if p in s.wallets.walletOf then s.wallets.walletOf[p] else issued
  }

  function WithWallet(s: Tables, p: ProfileId, issued: WalletId): Tables {
    if p in s.wallets.walletOf then s
    else s.(wallets := Wallets(s.wallets.owners[issued := Some(p)], s.wallets.walletOf[p := issued]))
  }
}
