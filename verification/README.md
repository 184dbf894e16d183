# Verified model of the coin-accounting protocol and its neighbours

This project models the parts of the video service where a mistake costs money, access or privacy, and
proves what holds of them. `dafny verify dfyconfig.toml` checks all of it.

**The accounting protocol.** `Tables` is one database state: profiles and deletion receipts, the catalogue
with its access policy, wallets, an append-only ledger, unlock receipts and cancellations, entitlements,
purchase identities, application bindings, decisions and deliveries, and reward intents. Each transaction is
a function on that state: `Purchases` (a store delivery becomes at most one credit), `Unlocks` (spending and
resolving), `Rewards` (rewarded adverts), `Accounts` (sign-in, deletion, staff grants, editorial changes),
with `Registry`, `Packs` and `Policy` for what they read. `Protocol` makes every transaction, clock tick,
configuration change, pack edit and staff edit one step of a state machine; `Invariants` says what every
reachable state satisfies, and every step is proved to keep it. `Runs`, `Lifecycles`, `Conservation`,
`Reads`, `Activity`, `ActivityTies` and `Notifications` prove what holds over whole runs, and `Witnesses`
runs the machine into the cases that they only say are possible. `Answers` and `StoreAnswers` say of every
operation when it succeeds, what it answers and what it writes, in terms of the stored rows alone.
`Database` is the same set of transactions as the service writes them, on an object whose rows are updated
in place, one row and one lock at a time, with rollback; each method is proved to equal its function and to
hold exactly the locks of its plan, in order. `LockPlans` says which locks each transaction takes, in which
order, given the rows it finds, and that whatever it writes is locked. `Locks` proves that transactions
which take their locks along the one global order can never stand still. `Guards` proves that the database's
triggers and constraints on the history tables never reject what these transactions write.

**The neighbours.** `Media` (video assets and their objects at the provider), `Patterns` and `Admission`
(catalogue admission written as a check and as a query, including the regular expression over the text of
an array), `Limiter` (the callback bridges' sliding window), `Consent` (the mobile analytics consent
controller) and `ContinueWatching`.

Modelling choices. A transaction is atomic and isolated by its locks; a raised error or a violated
constraint leaves no trace. Digests are modelled as injective keys, and the two kinds of transaction key (of
a raw delivery, and of one resolved to an application) as distinct constructors: both digests hash
four-element lists, so that they never coincide is an assumption. Advisory lock numbers are assumed distinct
for distinct names. Account locks are ordered by the profile key of their identity: an identity never has a
second profile, so one ranking of identities fits a whole run (`Lifecycles.RankOfARun`). An account's rows -
profile, wallet, intents, entitlements - are locked in no fixed order; nobody ever waits for one, because
each is locked only by who holds the account's own lock. Instants are integers in microseconds and payment
times integers in milliseconds; the limiter's clock readings are real numbers. Drawn identifiers (UUIDs, row
keys) are parameters, and a drawn identifier already in use fails as the unique key does. Clocks, settings
and the provider's answers are parameters or environment steps. The session and the native calls of the
consent controller follow an arbitrary sequence of moments, one for each await.

What the proofs found:

- The 24-hour honour window is exact: a payment exactly 24 hours after an offer was shown may be credited
  less than shown, and so may any later one (`Packs.HonorWindowIsTight`).
- A pack that was ever on sale counts for a payment exactly when it was on sale at some instant of the 24
  hours up to it (`StoreAnswers.CountsIffRecentlyOnSale`). A pack that never was on sale may count all the
  same: one that was scheduled and retired before it started (`StoreAnswers.NeverOnSaleMayBeCredited`).
- The decision table's documentation promises one decision per store transaction
  (backend/apps/commerce/models.py:41). The code allows two, never two credits: when the registry stops
  giving an app its application, a new delivery of an already decided transaction is decided again under
  its raw key, as a quarantine (`Runs.SecondDecisionIff`; a run that does it: `Witnesses.TwoDecisionsReached`).
- A refund delivered in that situation does not reach the purchase it refunds: the buyer is still told
  "credited", not "review required" (`Reads.RefundRequiresReview` has the exact condition,
  `Witnesses.RefundIsMissed` a run).
- One provider transaction grants at most one reward for each time it was forgotten, and one more
  (`Lifecycles.GrantsAtMostOncePerForgetting`). It is forgotten exactly when the account or the episode of
  the intent it granted is deleted (`Lifecycles.ForgottenIff`); then it can grant again
  (`Witnesses.TransactionGrantsTwice`). A single intent is never granted twice
  (`Lifecycles.EachIntentGrantedOnce`).
- The guard on an entitlement's source in the reward grant never fires (`Rewards.SourceCheckNeverFires`).
- A webhook that names a purchase identity not issued yet, or a product not listed yet, is passed on without
  asking the provider. If the identity is issued, or the product listed, before the fulfilment, it is
  credited unconfirmed; these are the only such cases (`Notifications.UnconfirmedCreditIff`,
  `Witnesses.IdentityIssuedInBetween`, `Witnesses.ProductListedInBetween`).
- A submission that fails after it created the provider's object leaves that object live, and no row names
  it, so no takedown or deletion reaches it. Every live object is kept by a row exactly while no such
  leftover is live (`Media.AllKeptIff`, `Media.LeaveAnOrphan`).
- The consent controller's check of the session returns through an await. A session that ends during the
  last one is not noticed, and the identity of the ended session becomes active
  (`Consent.OutdatedIdentityBecomesActive`).
- A minute closed at both ends can hold 31 relayed callbacks; half-open minutes hold at most 30
  (`Limiter.ClosedMinuteMayHoldOneMore`, `Limiter.NoMinuteIsOverfull`).
- The activity page can raise on a healthy wallet when ledger lines carry the same time
  (`Witnesses.TiedLinesMayRaise`): some order of the query raises exactly when, at some instant, the balance
  before it with all its debits is below zero, or with all its credits above the limit
  (`ActivityTies.SomeOrderRaisesIff`).

## Model

| member | source | states |
|---|---|---|
| Registry.LoadProducts | backend/apps/commerce/configuration.py:43-119 | in a known mode the loop accepts exactly the registries of 1 to 32 rows with the right fields and an approved scope in which products are unique and apps and applications are one-to-one |
| Registry.ModesAreSeparate | backend/apps/commerce/configuration.py:66-92 | no registry is accepted both as generated fixtures and as sandbox scope |
| Registry.ClashMeansIncompatible | backend/apps/commerce/configuration.py:106-115 | the two lookup structures detect a clash exactly when some accepted product is incompatible |
| Registry.ScopeIsUnique | backend/apps/commerce/services.py:49-51 | the application looked up for an app does not depend on the order of the registry |
| Packs.CatalogOffers | backend/apps/commerce/packs.py:35-62 | the catalogue lists exactly the offers of the selected products, once each with badge and highlight, ordered by sort order and then coins, equal ones in the order of the products |
| Packs.SortOffers | backend/apps/commerce/packs.py:61 | the sort is a stable permutation into the order of the keys |
| Packs.Best | backend/apps/commerce/packs.py:17-22 | the pack offered is live and has the most coins of all live packs of its product, the oldest among equals |
| Packs.AddPackEvolves | backend/apps/commerce/models.py:140-144 | a saved new pack satisfies the table's constraints and takes nothing from older packs |
| Packs.EditPackEvolves | backend/apps/commerce/migrations/0003_coin_packs.py:9-28 | a save that the trigger lets through rewrites neither amounts nor schedule nor creation and undoes no retirement; the save itself, not the trigger, stamps a new retirement with the present |
| Packs.ShownCoinsAreCredited | backend/apps/commerce/packs.py:65-76 | a payment at or after an offer was shown and less than 24 hours later is worth at least the shown coins, whatever packs were added or retired |
| Packs.HonorWindowIsTight | backend/apps/commerce/packs.py:14 | at 24 hours, and at every longer delay, the promise fails, on a concrete pack |
| Packs.PastPaymentIsSettled | backend/apps/commerce/packs.py:67-76 | the worth of a payment strictly in the past does not depend on when it is processed |
| Packs.CreditedCoinsInRange | backend/apps/commerce/packs.py:65-76 | a credit lies between the registry floor and the size limit of a ledger line; its exact amount is in `StoreAnswers.CreditedCoinsAre` |
| Policy.OfferedCoinTermsAreAccepted | backend/apps/entitlements/policy.py:177-203 | a shown coin offer and its terms pass the unlock's own checks while the policy version stands |
| Policy.OffersAgreeWithAccess | backend/apps/entitlements/policy.py:103-126 | offers and authorization never contradict each other: one granted method exactly when access is granted, none of it when locked |
| Policy.RewardNeedsNoEntitlement | backend/apps/advertising/services.py:47-53 | exactly when a rewarded advert is offered, and only when nothing is held |
| Purchases.Application | backend/apps/commerce/services.py:48-73 | a resolved application is the app's permanent one, or one no app has yet |
| Purchases.ApplicationIff | backend/apps/commerce/services.py:48-73 | an application is resolved exactly when a listed product of the app has it, the app is not bound to another, and no other app is bound to it |
| Purchases.FulfillMovesCoinsIff | backend/apps/commerce/services.py:143-193 | a delivery moves coins exactly when it is the first word on its transaction, supported, valid, for a live owner, and the ledger can take it |
| Purchases.FulfillCreditsWorth | backend/apps/commerce/services.py:119-140 | a credited delivery appends exactly one line, for what `StoreAnswers.CreditedCoinsAre` says it is worth, to the wallet of the identity it names |
| Purchases.ReportedCreditedIff | backend/apps/commerce/services.py:173-193 | a delivery is answered "credited" exactly when its own claim is the credited one and it is an unsuspicious purchase |
| Purchases.RedeliveryIsIdempotent | backend/apps/commerce/services.py:148-152 | a redelivery is answered from its stored row and changes nothing, in any later state |
| Purchases.FulfillKeepsDecisions | backend/apps/commerce/migrations/0002_history_guards.py:14-15 | a decided transaction keeps its decision through every delivery |
| Purchases.FulfillKeepsBindings | backend/apps/commerce/migrations/0002_history_guards.py:12-13 | an app's application is never rebound |
| Purchases.FulfillSettles | backend/apps/commerce/services.py:156-172 | every committed delivery leaves its transaction decided, under its raw key or its application's |
| Unlocks.AssessDebitIff | backend/apps/wallet/services.py:81-107 | an admitted request is debited exactly when the episode is locked for the account and the confirmed terms are current and affordable |
| Unlocks.UnlockMovesCoinsIff | backend/apps/wallet/services.py:91-120 | coins move exactly on a chargeable request, by the confirmed price, together with the entitlement and a receipt that names the debit |
| Unlocks.ChargedBalance | backend/apps/wallet/services.py:120 | a charged buyer is told the old balance less the price |
| Unlocks.ReplayChangesNothing | backend/apps/wallet/services.py:63-89 | repeating a completed request writes nothing and answers with its receipt or refuses |
| Unlocks.ResolveIsIdempotent | backend/apps/wallet/services.py:141-163 | resolving a request again answers the same without a write |
| Unlocks.ResolveNeverCharges | backend/apps/wallet/services.py:123-163 | a resolution adds no line, receipt or entitlement |
| Unlocks.ResolveOnlyCancels | backend/apps/wallet/services.py:156-163 | what a resolution cancels was not completed and carries the terms asked about |
| Rewards.GrantCreatesEntitlementIff | backend/apps/advertising/services.py:177-188 | a callback changes entitlements exactly when it grants, in the same step, and then the status reads granted |
| Rewards.PendingHoldsNothing | backend/apps/advertising/services.py:171-176 | an available offer means the account holds nothing for the episode |
| Rewards.SourceCheckNeverFires | backend/apps/advertising/services.py:182-184 | whenever the source guard would deny, an earlier check has denied already |
| Rewards.GrantIsIdempotent | backend/apps/advertising/services.py:157-163 | repeating the granting callback is acknowledged and writes nothing |
| Accounts.StaffSaveKeepsCoinGrants | backend/apps/entitlements/admin.py:118-133 | no manual save adds, removes or rewrites a coin grant |
| Accounts.StaffDeleteKeepsCoinGrants | backend/apps/entitlements/admin.py:148-161 | no manual deletion removes a coin grant |
| Accounts.DeletionIsFinal | backend/apps/accounts/lifecycle.py:22-36 | after an accepted deletion the identity has no profile and can get none, exactly its wallets are detached, and the ledger is untouched |
| Invariants.SolventAfter | backend/apps/wallet/migrations/0002_accounting_safeguards.py:69-74 | a line that passes the balance guard keeps every wallet, at every moment of history, within 0 and 9007199254740991 |
| Invariants.CreditAppended | backend/apps/commerce/migrations/0002_history_guards.py:19-36 | a new credited decision with its line keeps credits and purchase lines one-to-one |
| Invariants.DebitAppended | backend/apps/wallet/migrations/0002_accounting_safeguards.py:94-101 | a new charged receipt with its line keeps charges and unlock lines one-to-one |
| Protocol.DeliverKeepsInv | backend/apps/commerce/services.py:143-193 | fulfilment keeps every invariant of the state |
| Protocol.CompletingKeepsCharges | backend/apps/wallet/services.py:94-110 | a second charge for an episode cannot arise, because the first one's coin grant would still be there |
| Protocol.SpendKeepsInv | backend/apps/wallet/services.py:43-120 | an unlock keeps every invariant |
| Protocol.ResolveKeepsInv | backend/apps/wallet/migrations/0004_cancellation_guards.py:4-30 | a resolution keeps every invariant, so a request is never both completed and cancelled |
| Protocol.IdentifyKeepsInv | backend/apps/commerce/services.py:31-39 | issuing a purchase identity keeps every invariant, one identity to a wallet |
| Protocol.DeleteAccountKeepsInv | backend/apps/accounts/lifecycle.py:22-36 | deleting an account with its cascades keeps every invariant |
| Protocol.StaffKeepInv | backend/apps/entitlements/admin.py:82-161 | staff grants and deletions keep every invariant |
| Protocol.RewardKeepsInv | backend/apps/advertising/services.py:123-188 | a reward callback keeps every invariant, one intent to a provider transaction |
| Protocol.NextKeepsInv | backend/apps/wallet/migrations/0002_accounting_safeguards.py:20-104 | every step of the system keeps every invariant |
| Protocol.RunKeepsInv | backend/apps/wallet/migrations/0002_accounting_safeguards.py:20-104 | every state of every run satisfies every invariant |
| Runs.SealedHappensOnce | backend/apps/commerce/services.py:160-172 | whatever seals itself and is only done unsealed happens at most once in a run |
| Runs.StoreIsAppendOnly | backend/apps/commerce/migrations/0002_history_guards.py:4-17 | no step removes or rewrites an identity, a binding, a decision or a recorded delivery |
| Runs.AtMostOneCredit | backend/apps/commerce/services.py:143-193 | over any run one app's store transaction is credited at most once |
| Runs.FirstDeliveryIsFinal | backend/apps/commerce/services.py:156-172 | once a first delivery is committed no later one credits the transaction, even if its app is configured only afterwards |
| Runs.AtMostOneCreditAcrossApps | backend/apps/commerce/services.py:48-73 | no two apps can both credit one transaction of the same application |
| Runs.SecondDecisionIff | backend/apps/commerce/services.py:160-172 | a decided transaction is decided again exactly when the registry no longer gives its app the same application, and then as a quarantine |
| Runs.ReceiptsAreAppendOnly | backend/apps/wallet/migrations/0002_accounting_safeguards.py:4-18 | no step removes or rewrites a receipt or a cancellation, or adds one for a request that has the other |
| Runs.AtMostOneCharge | backend/apps/wallet/services.py:81-119 | over any run no wallet is charged twice for one episode |
| Runs.ActedOnAtMostOnce | backend/apps/wallet/services.py:56-89 | a request is completed or charged at most once, and never after it was answered |
| Runs.ResolvedIsNeverCharged | backend/apps/wallet/services.py:136-163 | after any answer of a resolution no later run charges or completes the request |
| Runs.OutcomeIsFinal | backend/apps/wallet/migrations/0004_cancellation_guards.py:4-30 | the outcome of a request never changes kind or content and is never both |
| Guards.ReceiptGuardNeverRejects | backend/apps/wallet/migrations/0002_accounting_safeguards.py:83-104 | in every reachable state a completed request's receipt passes the triggers and constraints on receipts |
| Guards.CancellationGuardNeverRejects | backend/apps/wallet/migrations/0004_cancellation_guards.py:4-30 | in every reachable state a new cancellation passes the trigger on terminal records |
| Guards.CreditGuardNeverRejects | backend/apps/commerce/migrations/0002_history_guards.py:19-36 | in every reachable state a new credited decision passes the trigger that compares it with its ledger line |
| Guards.OwnersOnlyDetach | backend/apps/wallet/migrations/0002_accounting_safeguards.py:20-35 | no step changes a wallet's owner, except to none |
| Guards.LedgerIsAppendOnly | backend/apps/wallet/migrations/0002_accounting_safeguards.py:4-14 | no step removes or rewrites a ledger line, or adds more than one |
| Lifecycles.DeletedNeverReturns | backend/apps/accounts/profiles.py:39-55 | once an identity has a deletion receipt no later state has a profile for it |
| Lifecycles.KeepsItsKey | backend/apps/accounts/profiles.py:49-55 | over any run an identity that is there twice is there under one profile key |
| Lifecycles.RankOfARun | backend/apps/entitlements/admin.py:18-26 | one ranking of identities by profile key fits every state of a run, so ordering account locks by profile key orders them the same everywhere |
| Lifecycles.DetachedIsFrozen | backend/apps/wallet/migrations/0002_accounting_safeguards.py:20-65 | a detached wallet never gains a line, a receipt, a cancellation or an owner |
| Lifecycles.RewardStatusIsAbsorbing | backend/apps/advertising/services.py:99-120 | over any run that deletes neither its own account nor its own episode an intent stays, a granted one stays granted and an expired one is never granted |
| Lifecycles.ToldStatusStays | backend/apps/advertising/services.py:109-112 | an account told granted, or expired, is told the same in every later state, until that account or the episode is deleted |
| Lifecycles.PendingIffGrantable | backend/apps/advertising/services.py:113-120 | pending is told exactly when a genuine, timely callback would be granted now |
| Lifecycles.EachIntentGrantedOnce | backend/apps/advertising/services.py:157-163 | over any run, deletions included, an intent is granted at most once |
| Lifecycles.GrantsAtMostOncePerForgetting | backend/apps/advertising/services.py:169-188 | over any run a provider transaction grants at most once more than it was forgotten |
| Lifecycles.ForgottenIff | backend/apps/accounts/lifecycle.py:32-35 | a step makes a granting transaction forgotten exactly when it deletes the account or the episode of the intent granted |
| Lifecycles.NoSecondGrant | backend/apps/advertising/services.py:169-170 | while that account and that episode are there the transaction grants nothing else |
| Lifecycles.OfferIsHonored | backend/apps/commerce/packs.py:65-76 | over any run after an offer was shown, a payment inside the honour window is worth at least the shown coins |
| Lifecycles.ShownCoinsReachTheWallet | backend/apps/commerce/services.py:122-126 | while the registry stands such a payment, when credited, puts at least the shown coins into its owner's wallet |
| Lifecycles.PastPaymentIsFixed | backend/apps/commerce/packs.py:65-76 | over any run the worth of a past payment does not change |
| Conservation.MatchedBooksBalance | backend/apps/wallet/services.py:32-33 | one-to-one matched credits and charges determine every balance, by unwinding the ledger |
| Conservation.CoinsAreConserved | backend/apps/wallet/migrations/0002_accounting_safeguards.py:52-104 | in every state of every run from the empty database each balance is credits less charges plus corrections, and within its limits |
| Conservation.EveryLineIsAccountedFor | backend/apps/commerce/migrations/0002_history_guards.py:19-36 | in every such state each purchase line has exactly one credited decision and each unlock line exactly one charged receipt, with its wallet and amount |
| Locks.Acquired | backend/apps/commerce/services.py:42-45 | taking a later lock keeps a transaction's locks along the global order |
| Locks.NobodyWaitsForAccountRows | backend/apps/accounts/profiles.py:22-27 | rows of an account, locked in no fixed order, are never waited for, since both transactions would hold the account's lock |
| Locks.NoWaitCycle | backend/apps/catalog/locking.py:9-34 | transactions that take their locks along the order never wait for each other in a cycle |
| Locks.SomeoneCanMove | backend/apps/wallet/services.py:61-78 | following who waits for whom along the order ends at a transaction that can move |
| Locks.ReachedIsProper | backend/apps/catalog/locking.py:9-34 | however transactions begin, take their next locks and end, no lock is held twice and every plan stays along the order |
| Locks.NothingStandsStill | backend/apps/commerce/services.py:146-163 | in every state reached so, while some transaction has not ended, some transaction can take its next lock or end |
| LockPlans.CreditIsLocked | backend/apps/commerce/services.py:147-163 | a delivery that moves coins holds its event, app, application, both keys of its transaction, its owner's identity and profile, and the credited wallet, in that order |
| LockPlans.DecisionIsLocked | backend/apps/commerce/services.py:156-172 | every new delivery holds its event and the key its decision is stored under |
| LockPlans.UnlockIsLocked | backend/apps/wallet/services.py:51-78 | an answered unlock holds identity, profile, series, episode and wallet, in that order |
| LockPlans.ResolveIsLocked | backend/apps/wallet/services.py:136-140 | an answered resolution holds identity, profile and wallet, in that order |
| LockPlans.GrantIsLocked | backend/apps/advertising/services.py:126-145 | a granting callback holds its provider transaction, identity, profile, series, episode and intent, in that order |
| LockPlans.DeletionIsLocked | backend/apps/accounts/lifecycle.py:26-35 | a deletion holds every profile, wallet, intent and entitlement that its cascades remove or detach, whatever order they take |
| Database.Database.LockCurrentProfile | backend/apps/accounts/profiles.py:22-36 | takes exactly the identity and then the profile row, and succeeds exactly for a current profile |
| Database.Database.GetOrCreateWallet | backend/apps/wallet/services.py:78 | the account's one wallet, created if missing |
| Database.Database.WalletBalance | backend/apps/wallet/services.py:32-33 | the sum of the wallet's lines |
| Database.Database.InsertLine | backend/apps/wallet/migrations/0002_accounting_safeguards.py:52-77 | a line is inserted exactly when it passes the constraints and the insert guard, and nothing else changes |
| Database.Database.ResolveApplication | backend/apps/commerce/services.py:48-73 | binds an app the first time, answers with its application or none, and locks app and application exactly when the app is listed |
| Database.Database.CreditOwner | backend/apps/commerce/services.py:102-140 | locks the owner a delivery names, exactly as far as the account is current, and then its wallet, and credits it or reports that there is none |
| Database.Database.Decide | backend/apps/commerce/services.py:85-140 | the decision and the ledger line of a new transaction, and a lock on its owner exactly unless it is refused for another reason |
| Database.Database.LockTransaction | backend/apps/commerce/services.py:159-163 | locks the raw key and then the resolved one, if there is one |
| Database.Database.SettleTransaction | backend/apps/commerce/services.py:156-172 | looks a transaction up under both keys and decides it only if neither is there, holding exactly the planned locks |
| Database.Database.Fulfill | backend/apps/commerce/services.py:143-193 | the row-by-row fulfilment is the protocol's fulfilment, with rollback, and takes exactly the locks of its plan, in order |
| Database.Database.PurchaseIdentity | backend/apps/commerce/services.py:31-39 | the row-by-row issue of an identity is the protocol's, holding exactly the account and, once it is current, the wallet |
| Database.Database.LockEpisodeForAccess | backend/apps/catalog/locking.py:15-34 | locks exactly a series and then its episode, and finds the stored row |
| Database.Database.AdmitUnlock | backend/apps/wallet/services.py:51-83 | admits a request up to the locked wallet or refuses it without a trace, with exactly the planned locks |
| Database.Database.DebitAndGrant | backend/apps/wallet/services.py:105-110 | the debit and the coin entitlement are written together or not at all |
| Database.Database.Complete | backend/apps/wallet/services.py:104-119 | the receipt is written with its debit and entitlement, or nothing is |
| Database.Database.UnlockEpisode | backend/apps/wallet/services.py:43-120 | the row-by-row unlock is the protocol's unlock, with rollback, and takes exactly the locks of its plan, in order |
| Database.Database.ResolveUnlock | backend/apps/wallet/services.py:123-163 | the row-by-row resolution is the protocol's, with exactly the locks of its plan |
| Database.Database.CreateIntent | backend/apps/advertising/services.py:56-96 | the row-by-row intent creation is the protocol's, with exactly the locks of its plan |
| Database.Database.JudgeCallback | backend/apps/advertising/services.py:152-176 | the checks on a callback decide as the protocol's verdict does |
| Database.Database.LockIntent | backend/apps/advertising/services.py:133-151 | locks the account, episode and intent of a callback as planned and says whether everything it names is there, current and its own |
| Database.Database.GrantVerifiedReward | backend/apps/advertising/services.py:123-188 | the row-by-row grant is the protocol's, with exactly the locks of its plan |
| Database.Database.RecordGrant | backend/apps/advertising/services.py:177-188 | the grant's writes are the protocol's, and the guard on the source in between is dead |
| Database.Database.LockAccounts | backend/apps/entitlements/admin.py:18-26 | locks exactly the identities and rows of the accounts, by profile key, succeeding exactly when all are current |
| Database.Database.LockEpisodes | backend/apps/entitlements/admin.py:27-36 | locks exactly the episodes and their series, each episode after its series, along the order |
| Database.Database.LockTargets | backend/apps/entitlements/admin.py:18-36 | all targets of a manual change are locked along the order, and nothing else, or the change is refused |
| Database.Database.LockEntitlements | backend/apps/entitlements/admin.py:156-158 | locks exactly the selection's existing rows in whatever order they are returned |
| Database.Database.StaffSave | backend/apps/entitlements/admin.py:118-133 | the manual save is the protocol's; done, it holds exactly its targets and, for a change, the changed row |
| Database.Database.StaffDelete | backend/apps/entitlements/admin.py:148-161 | the manual deletion is the protocol's; done, it holds exactly the accounts, episodes and existing rows of the selection |
| Database.Database.GetOrCreateProfile | backend/apps/accounts/profiles.py:39-55 | the row-by-row sign-in is the protocol's, refuses an identity with a deletion receipt, and holds exactly the identity and an existing profile row |
| Database.Database.RequestDeletion | backend/apps/accounts/lifecycle.py:22-36 | the row-by-row deletion with its cascades is the protocol's, and takes exactly the identity's lock and then the account's rows, in whatever order the cascades reach them |
| Notifications.UnconfirmedIsNotCreditable | backend/apps/commerce/notifications.py:34-54 | a delivery passed on without confirmation is not creditable when it is fulfilled, whatever ran in between, unless its identity was issued or its product listed in between |
| Notifications.NewCreditIsConfirmed | backend/apps/commerce/notifications.py:57-76 | a new credit by webhook has a provider record with the same transaction, product, owner and time that reports it owned, or its identity was issued or its product listed in between |
| Notifications.UnconfirmedCreditIff | backend/apps/commerce/notifications.py:42-56 | an unconfirmed delivery is credited exactly when it is creditable at fulfilment and its identity was issued or its product listed after the check |
| Notifications.NegativeEvidenceBars | backend/apps/commerce/notifications.py:30-33 | a cancellation, delivered or reported by the provider, bars every later credit of its transaction |
| Reads.ShownIsInTheLedger | backend/apps/commerce/reads.py:68-104 | a shown credit is a purchase line of the reader's own wallet, with its coins and reference |
| Reads.CreditIsVisible | backend/apps/commerce/reads.py:68-104 | a credit is shown to its owner at once, for exactly its coins, not under review |
| Reads.ShownStaysShown | backend/apps/commerce/reads.py:77-104 | over any run a shown credit keeps its coins and reference, and a review once required stays required |
| Reads.RefundRequiresReview | backend/apps/commerce/reads.py:84-104 | a refund after the credit takes nothing back and puts the shown purchase under review exactly when the transaction was not decided under its raw key and the registry still gives the app its application |
| Reads.OwnerIsKept | backend/apps/wallet/migrations/0002_accounting_safeguards.py:20-31 | over any run an account that still exists has kept its wallet |
| Answers.PolicyIs | backend/apps/entitlements/policy.py:57-96 | an episode's policy is its own mode, or, inherited, free for the first episodes and against adverts for the others; price, advert availability and version follow from the inputs |
| Answers.AccessIff | backend/apps/entitlements/policy.py:103-126 | ineligible exactly when not eligible; granted exactly when eligible and held, by that source, or free; locked otherwise, for want of an account exactly when there is none |
| Answers.OffersAre | backend/apps/entitlements/policy.py:177-203 | which single method a granted answer shows, and exactly which methods, in which order, a locked one offers |
| Answers.AdvertisedIff | backend/apps/advertising/services.py:47-53 | an advert is offered exactly to a consenting account that holds nothing, for an eligible episode whose mode and series allow adverts, while adverts are on |
| Answers.AnsweredMayGoOn | backend/apps/wallet/services.py:51-83 | only a current account is answered, while spending is on, for an uncancelled request and an episode that is eligible before and after the wallet is locked |
| Answers.ReplayIff | backend/apps/wallet/services.py:61-89 | a request with a stored receipt is answered exactly when it may go on, repeats its terms, and the episode is held or free; the answer is that receipt and the wallet's balance, and nothing is written |
| Answers.FreeUnlockIff | backend/apps/wallet/services.py:91-120 | a new request for a held or free episode is completed exactly when it may go on, with a stored receipt over no coins and nothing else |
| Answers.PaidUnlockIff | backend/apps/wallet/services.py:91-120 | any other new request is completed exactly when it may go on, its terms are current and the wallet can pay; line, entitlement, receipt and balance are exact |
| Answers.UnlockErrors | backend/apps/wallet/services.py:52-103 | which refusal an unlock is told |
| Answers.ResolveIff | backend/apps/wallet/services.py:136-163 | a resolution is answered exactly for a current account while spending is on, on the terms of the stored outcome if there is one |
| Answers.ResolveAnswers | backend/apps/wallet/services.py:141-163 | it answers "completed" exactly for a stored receipt, with it, and "cancelled" exactly when the request is cancelled afterwards, with its terms; the balance told is the wallet's; only the cancellation is written |
| Answers.ResolveErrors | backend/apps/wallet/services.py:136-155 | which refusal a resolution is told |
| Answers.RepeatedIntentIff | backend/apps/advertising/services.py:65-77 | a request that has an intent is answered with it exactly for its own episode |
| Answers.NewIntentIff | backend/apps/advertising/services.py:78-96 | a new request gets an intent exactly when an advert is offered and the policy is the one it saw; the intent binds account, episode, ad unit and policy for 15 minutes |
| Answers.UnitNameIsLastPart | backend/apps/advertising/services.py:153 | an ad unit is compared by what follows its last slash |
| Answers.VerdictIff | backend/apps/advertising/services.py:124-176 | a callback grants exactly when it names an ungranted intent of a current account with its user and ad unit, is timely, its transaction granted nothing stored, the policy stands and the advert is still offered; it is acknowledged exactly when it is the one that granted |
| Answers.RewardAnswers | backend/apps/advertising/services.py:157-188 | a grant writes the entitlement and stamps the intent with time and transaction; everything else writes nothing |
| Answers.StatusIff | backend/apps/advertising/services.py:109-120 | granted, expired and pending are told exactly on the stored rows that mean it |
| Answers.SignInIff | backend/apps/accounts/profiles.py:45-55 | a verified identity signs in exactly when it has 1 to 128 characters and was never deleted; it keeps its profile or gets a new one |
| Answers.DeletionIff | backend/apps/accounts/lifecycle.py:23-25 | a deletion is accepted exactly within 300 seconds of a sign-in |
| Answers.DeletionTakesOwnRowsOnly | backend/apps/accounts/lifecycle.py:26-35 | it records the identity, takes exactly its profile, and touches no table but people, wallets, entitlements and intents |
| Answers.DeletionKeepsOtherEntitlements | backend/apps/accounts/lifecycle.py:32-35 | exactly the account's entitlements go, and every other one stays as it was |
| Answers.DeletionKeepsOtherIntents | backend/apps/accounts/lifecycle.py:32-35 | exactly the account's intents go, and every other one stays as it was |
| Answers.DeletionKeepsOtherWallets | backend/apps/wallet/models.py:15-22 | exactly the account's wallets lose their owner |
| Answers.StaffSaveIff | backend/apps/entitlements/admin.py:118-133 | staff save a grant exactly for a current account and an episode that is there, never to or from coins |
| Answers.StaffDeleteIff | backend/apps/entitlements/admin.py:148-161 | staff delete a selection exactly when all its accounts are current, its episodes there, and no coin grant among it |
| Answers.SaveEpisodeIff | backend/apps/catalog/models.py:340-345 | an episode is saved exactly when its price fits its mode, it was not withdrawn, and it stays in its series |
| Answers.DeleteEpisodeTakesItsRowsOnly | backend/apps/entitlements/models.py:16-26 | deleting an episode takes exactly its entitlements and intents |
| StoreAnswers.OfferIff | backend/apps/commerce/packs.py:39-53 | a product is offered at its best pack on sale, at the registry's coins when it never had a pack, and otherwise not at all |
| StoreAnswers.AddPackIff | backend/apps/commerce/models.py:115-144 | when a new pack is saved and what its row is, the bonus rounded down |
| StoreAnswers.EditPackIff | backend/apps/commerce/migrations/0003_coin_packs.py:9-28 | when a pack is changed and what its row is then |
| StoreAnswers.CreditedCoinsAre | backend/apps/commerce/packs.py:65-76 | a payment is worth exactly the registry's coins or those of a pack of the product that was created and started by then and neither ended nor retired 24 hours before, and no such pack has more |
| StoreAnswers.CountsIffRecentlyOnSale | backend/apps/commerce/packs.py:68-75 | a pack ever on sale counts exactly when it was on sale within the 24 hours up to the payment |
| StoreAnswers.NeverOnSaleMayBeCredited | backend/apps/commerce/packs.py:70-73 | a pack that never was on sale counts, concretely |
| StoreAnswers.DeliveryPaysIff | backend/apps/commerce/services.py:143-172 | in every reachable state a delivery moves coins exactly when purchases are on, it is new and valid, its product is sold, its app resolves, its transaction is open, its owner is current and the line fits |
| StoreAnswers.PaymentIsExact | backend/apps/commerce/services.py:119-140 | then the line, the decision and the answer are exactly these, for the coins the payment is worth |
| StoreAnswers.FulfillIsDoneIff | backend/apps/commerce/services.py:144-172 | a delivery is accepted exactly while purchases are on and it is stored already, or the registry loads and the ledger takes what it earns |
| StoreAnswers.FulfillWrites | backend/apps/commerce/services.py:156-193 | what an accepted delivery writes: its row, its app's binding, and its transaction's decision under the raw key if one is stored there or else under its own key |
| StoreAnswers.NewDecisionIs | backend/apps/commerce/services.py:85-140 | a transaction seen first is credited exactly when payable, and otherwise quarantined for the first thing that is wrong |
| StoreAnswers.DeliveryIsTold | backend/apps/commerce/services.py:173-193 | what a delivery is told, given its transaction's decision |
| StoreAnswers.IdentifyIff | backend/apps/commerce/services.py:31-39 | when an identity is issued, for which wallet, and that it is new exactly when the wallet has none |
| StoreAnswers.CorrectionIff | backend/apps/wallet/migrations/0002_accounting_safeguards.py:52-77 | a correction is taken exactly when its line fits the constraints of the ledger |
| StoreAnswers.RoutedIff | backend/apps/commerce/notifications.py:25-76 | every notification ends in exactly one way: ignored, unanswerable, fulfilled as it is, or as a cancellation the provider reported |
| StoreAnswers.ConfirmedPurchaseIsCredited | backend/apps/commerce/notifications.py:57-76 | a purchase the provider confirms is passed on, and credited with one line if it is payable when fulfilled |
| StoreAnswers.CancellationIsFulfilled | backend/apps/commerce/notifications.py:30-33 | a cancellation is always fulfilled, and then bars every later credit of its transaction |
| StoreAnswers.StatusIff | backend/apps/commerce/reads.py:68-104 | a buyer is shown a credit exactly when it is of the product asked about and went to the buyer's wallet; it is under review exactly when a quarantined delivery is stored for it |
| StoreAnswers.EveryCreditIsPriced | backend/apps/commerce/services.py:119-140 | over any run each credit ever made stays one for the coins of its product, or of a pack of that product created by then |
| StoreAnswers.EveryCreditFromEmpty | backend/apps/commerce/services.py:119-140 | the same in every state of every run from the empty database |
| Activity.ListWalletActivity | backend/apps/wallet/activity.py:26-51 | raises exactly when some prefix sum is out of range, and otherwise shows the newest min(20, n) lines in reverse, each with its prefix sum |
| Activity.OneOrder | backend/apps/wallet/activity.py:35-39 | a chronological answer without ties is the ledger's own order |
| Activity.RunningIsHistorical | backend/apps/wallet/activity.py:40-46 | each running balance is the wallet's balance at that moment of the ledger |
| Activity.PageIsExact | backend/apps/wallet/activity.py:32-51 | on every reachable ledger without ties the page never raises and its newest line shows the balance |
| Activity.PageOverRuns | backend/apps/wallet/activity.py:32-51 | the same for any account in any state of any run |
| ActivityTies.SomeOrderRaisesIff | backend/apps/wallet/activity.py:35-45 | some order of the query makes the page raise exactly when, at some instant, the balance before it with all its debits is below zero, or with all its credits above the limit |
| ActivityTies.RaisesOverRunsIff | backend/apps/wallet/activity.py:35-45 | the same in every state of every run from the empty database |
| Media.ReachesIsClosure | backend/apps/playback/models.py:34-84 | the table of later states is exactly the closure of the transition table |
| Media.AllKeptIff | backend/apps/playback/providers/bunny.py:98-135 | every live provider object is kept by exactly one row exactly while nothing a failed submission left is live |
| Media.LeaveAnOrphan | backend/apps/playback/ingest.py:330-346 | a failed submission that leaves such an object, concretely |
| Media.LeftoverIsSound | backend/apps/playback/providers/bunny.py:106-135 | an object left by a failed submission breaks nothing else |
| Media.RemovedObjectIsGone | backend/apps/playback/ingest.py:440-467 | the provider object of a removed row is gone |
| Media.RemovedStaysGone | backend/apps/playback/ingest.py:440-467 | over any operations it stays gone and the row stays removed |
| Media.EvolvedIsTransitive | backend/apps/playback/models.py:192-198 | what single operations keep, any sequence of them keeps |
| Media.AllowedIs | backend/apps/playback/models.py:34-84 | the transition table in words: stay, be removed, be blocked until removed, move on one stage, fail until ready, be processed again after failing |
| Media.MediaLibrary.Save | backend/apps/playback/models.py:136-166 | a save succeeds exactly when no other row of the episode is in flight or ready |
| Media.MediaLibrary.MarkFailed | backend/apps/playback/models.py:200-213 | fails a row exactly when the transition is legal |
| Media.MediaLibrary.ExpireProviderAsset | backend/apps/playback/ingest.py:99-113 | fails closed: succeeds exactly without an object or with a working deletion |
| Media.MediaLibrary.SubmitToProvider | backend/apps/playback/ingest.py:319-358 | a submitted row names exactly the new object; a failed one fails the row and keeps exactly what the provider was left with; an unexpected error leaves the row alone |
| Media.MediaLibrary.PollAndApply | backend/apps/playback/ingest.py:400-437 | a row becomes ready exactly when the provider reports captions, a thumbnail and a rendition, and no save is ever rejected |
| Media.MediaLibrary.Reconcile | backend/apps/playback/ingest.py:361-397 | keeps the library sound, never attempts an illegal transition, and makes a row ready exactly when the provider does |
| Media.MediaLibrary.FindFailed | backend/apps/playback/ingest.py:152-160 | the newest failed row of the same master, if any |
| Media.MediaLibrary.IngestMaster | backend/apps/playback/ingest.py:116-203 | the same master is never stored twice, other rows are untouched, exactly a different active master refuses it, an active row answers for its master, and the newest failed one is submitted again |
| Media.MediaLibrary.AnswerActive | backend/apps/playback/ingest.py:144-150 | an active row answers for its master, a processing one after asking the provider |
| Media.MediaLibrary.SubmitMaster | backend/apps/playback/ingest.py:152-203 | the newest failed row is submitted again, or else a new one is |
| Media.MediaLibrary.Resubmit | backend/apps/playback/ingest.py:161-180 | a failed row is resubmitted only after its old object is gone |
| Media.MediaLibrary.BeginStaffUpload | backend/apps/playback/ingest.py:206-260 | exactly when an upload is refused, and otherwise one pending row per episode, the same one for the same master, kept when no upload address can be minted |
| Media.MediaLibrary.CompleteStaffUpload | backend/apps/playback/ingest.py:272-316 | only a pending row with the expected bytes is claimed, once, and every other request is answered by its state: mismatched bytes are refused, claimed rows answer as they are |
| Media.MediaLibrary.TakedownAsset | backend/apps/playback/ingest.py:440-467 | a row is marked removed exactly when its object was expired; otherwise only its diagnostic changes |
| Media.MediaLibrary.DeleteAsset | backend/apps/playback/signals.py:12-24 | a row is deleted exactly when its object was expired |
| Media.MediaLibrary.ProviderWorks | backend/apps/playback/ingest.py:400-437 | whatever the provider changes or loses between operations, everything the library keeps survives |
| Patterns.AnyOfMatches | backend/apps/catalog/context.py:11-22 | the alternation of the codes matches exactly the codes |
| Patterns.ArrayPatternIsScope | backend/apps/catalog/eligibility.py:24-35 | the pattern over an array's text matches exactly when every element is a code: no quoted element, null or comma passes |
| Patterns.TwoLettersArePlain | backend/apps/catalog/context.py:10-14 | country and language codes stand unquoted in an array's text |
| Admission.ValidatedArrays | backend/apps/catalog/eligibility.py:24-35 | the loop of filters keeps exactly the rows whose columns are all valid scopes |
| Admission.MatchingRights | backend/apps/catalog/eligibility.py:65-100 | the rights query finds exactly the well-formed rights in force that cover language and launch context |
| Admission.SeriesIsAdmitted | backend/apps/catalog/eligibility.py:103-150 | the application's check decides exactly admission |
| Admission.CatalogMetadata | backend/apps/catalog/metadata.py:7-23 | metadata is found exactly when it is complete in the launch language, and is that row's |
| Admission.OrderBy | backend/apps/catalog/eligibility.py:191 | the catalogue order: a permutation sorted by editorial rank and then public identifier |
| Admission.EligibleSeries | backend/apps/catalog/eligibility.py:153-191 | the query selects exactly the published series that the check admits and that have complete metadata, each no more often than it is stored, in catalogue order |
| Admission.CaptionsOnlyNarrow | backend/apps/catalog/eligibility.py:83-87 | asking for a captions language only narrows admission |
| Admission.AdmittedCodesAreKnown | backend/apps/catalog/context.py:17-22 | the languages of an admitted series are known codes and include the launch language |
| Limiter.CallbackWindow.Admit | backend/config/reward_callback_bridge.py:117-122 | the pruned deque accepts exactly when a count over the whole history of acceptances would |
| Limiter.CallbackWindow.Prune | backend/config/purchase_callback_bridge.py:75-76 | pruning drops exactly what left the window |
| Limiter.RelayedIsSpaced | backend/config/reward_callback_bridge.py:119-122 | any 31 successive callbacks of any run span at least 60 seconds |
| Limiter.RelayedIff | backend/config/reward_callback_bridge.py:117-122 | a request is relayed exactly when fewer than 30 were relayed in the 60 seconds before it |
| Limiter.NoMinuteIsOverfull | backend/config/purchase_callback_bridge.py:75-80 | no half-open minute of any run holds more than 30 callbacks |
| Limiter.ClosedMinuteMayHoldOneMore | backend/config/reward_callback_bridge.py:117-118 | a minute closed at both ends can hold 31 |
| Consent.Controller.SetActive | mobile/src/analytics/consentController.ts:59-72 | listeners hear each change of the enabled state once, in order |
| Consent.Controller.DisableAndReset | mobile/src/analytics/consentController.ts:97-104 | nothing is active afterwards; success means off, denied, anonymous and empty, whatever failed in between |
| Consent.Controller.StopIfSessionChanged | mobile/src/analytics/consentController.ts:106-110 | stops exactly when the session has changed at the check; otherwise the answer arrives an await later and the session may be another one |
| Consent.Controller.Activate | mobile/src/analytics/consentController.ts:129-146 | succeeds exactly when every call does and every check sees the session; then collection is on, analytics only, under the profile, with no other profile's events |
| Consent.Controller.ApplyProfile | mobile/src/analytics/consentController.ts:113-151 | succeeds exactly for a consenting, safely named profile whose session is current at the start and at every check, with every call a success; an active identity always means collection on, analytics only, under it; the session at its return is whatever the last await left |
| Consent.OutdatedIdentityBecomesActive | mobile/src/analytics/consentController.ts:146-149 | a session that ends during the last await is not noticed, concretely |
| Consent.Controller.ClearForAccountDeletion | mobile/src/analytics/consentController.ts:152-170 | nothing is active afterwards; a diagnostic is recorded exactly when the identity's session is current and user and events were cleared under it, once and anonymously; exactly when it succeeds |
| Consent.Controller.Clear | mobile/src/analytics/consentController.ts:171-173 | nothing is active afterwards; succeeds exactly when all four calls do |
| Consent.Controller.Idle | mobile/src/analytics/consentController.ts:83-86 | between tasks, whatever the session and the native side do, what an active identity guarantees survives |
| Consent.TasksNeverOverlap | mobile/src/analytics/consentController.ts:74-81 | tasks run one at a time in the order of the calls, however they interleave |
| ContinueWatching.Tabulate | backend/apps/progress/continue_watching.py:39-50 | the loop finds exactly each series' latest row and each episode's row |
| ContinueWatching.SortNewestFirst | backend/apps/progress/continue_watching.py:52-58 | the series are ordered by latest activity |
| ContinueWatching.ResumeItem | backend/apps/progress/continue_watching.py:82-99 | the unfinished latest episode, else the first unfinished one from the resume point on, else nothing |
| ContinueWatching.ListContinueWatching | backend/apps/progress/continue_watching.py:25-68 | at most eight items, one per series, newest first, and a series is left out only when it offers nothing or eight newer ones were found |
| Witnesses.TwoDecisionsReached | backend/apps/commerce/services.py:158-172 | from the empty database: a purchase, a change of the registry and a late refund reach two decisions of one transaction |
| Witnesses.RefundIsMissed | backend/apps/commerce/reads.py:84-104 | in that run the buyer is still told the purchase is credited and not under review |
| Witnesses.IdentityIssuedInBetween | backend/apps/commerce/notifications.py:50-56 | a run in which an identity issued after the check makes an unconfirmed delivery creditable |
| Witnesses.ProductListedInBetween | backend/apps/commerce/notifications.py:34-45 | the same for a product listed after the check |
| Witnesses.TiedLinesMayRaise | backend/apps/wallet/activity.py:35-45 | a run with a purchase and an unlock at one instant after which the activity page may raise although the wallet never was overdrawn |
| Witnesses.TransactionGrantsTwice | backend/apps/advertising/services.py:169-188 | a run in which one provider transaction grants two intents, the first account being deleted in between |

## Left out

- Lifecycles.EachIntentGrantedOnce: the run draws the intent's identifier at most once, as unique random identifiers do; a deleted intent's identifier drawn again would name another intent.
- Notifications.NewCreditIsConfirmed: not for an identity issued or a product listed between check and fulfilment; `Notifications.UnconfirmedCreditIff` says exactly what happens then.
- Activity.PageIsExact: only while no two lines of the wallet carry the same time; `ActivityTies.SomeOrderRaisesIff` says exactly when the page can raise otherwise.
- HTTP views, serializers, throttling, administration screens, settings and logging: plumbing around the protocols.
- Signatures, hashing and JSON parsing of callbacks: a delivery arrives normalized, an advert callback verified.
- The store provider's API (backend/apps/commerce/revenuecat.py) and purchase recovery: its answer is an arbitrary record; advert key fetching likewise.
- Integer column sizes beyond the stated limits: a request's price arrives between 1 and 2147483647 (backend/apps/wallet/serializers.py:12).
- The size limit and the duplicate-key check of the registry's JSON text (backend/apps/commerce/configuration.py:12-26): a registry arrives parsed.
- The second phase of account deletion (backend/apps/accounts/lifecycle.py:57-85): it only updates the receipt's own bookkeeping.
- Locks taken by the editorial screens and by read-only transactions (balances, statuses, the activity page): the lock plans cover deliveries, identities, unlocks, resolutions, intents, reward callbacks, staff grants, sign-in and deletion.
- Moving a manual grant to another account or episode: the service refuses it; here a grant is named by both, so such a request cannot be written down.
- Eligibility inside the accounting protocol is one flag per episode that any editorial step may change; the unlock reads it a second time after the wallet lock.
- Purchase history and the product catalogue read (backend/apps/commerce/reads.py:15-65): projections of the same decisions and offers.
- Episode titles on the activity page and item details of continue-watching beyond identifier and position: projections without decisions.
- The finer interleaving of a provider submission with a takedown (backend/apps/playback/ingest.py:351-358 saves without a row lock): each media operation is one step, and only then is a removed row terminal.
- The checks of the launch configuration, episode windows and per-asset caption rights (backend/apps/catalog/eligibility.py:201-262): further filters of the same kind.
- Blank text is one predicate shared by the check and the query; other Unicode whitespace is not modelled.
- The media row's captions language, duration, provider name and timestamps: carried along without a decision.
- Status counters, deadlines and the relayed request of the callback bridges.
- Float rounding of times: instants are integers, the limiter's are real numbers.
- Between the adapter calls of the consent controller several microtasks may pass; they are one moment each, so a change of the session that is undone within one moment is not seen.
