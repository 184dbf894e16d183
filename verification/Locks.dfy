/** The locks transactions take, their one global order, and why that order excludes deadlock. */
module Locks {
  import opened Registry
  import opened Policy
  import opened Tables

  /** Advisory locks and row locks. The rows of an account are named with its identity: a row never moves
      from one account to another. */
  datatype Lock =
    | EventLock(event: EventKey)
    | AppLock(app: AppId)
    | ApplicationLock(application: ApplicationId)
    | RawLock(transaction: Transaction)
    | ResolvedLock(key: TxKey)
    | AdvertLock(advert: string)
    | AccountLock(uid: Uid)
    | SeriesRow(series: nat)
    | EpisodeRow(series: nat, episode: EpisodeId)
    | ProfileRow(uid: Uid, profile: ProfileId)
    | WalletRow(uid: Uid, wallet: WalletId)
    | IntentRow(uid: Uid, intent: Uuid)
    | EntitlementRow(uid: Uid, episode: EpisodeId)

  /** A row of an account, locked only by whoever holds the account's own lock. */
  predicate OfAccount(lock: Lock) {
    lock.ProfileRow? || lock.WalletRow? || lock.IntentRow? || lock.EntitlementRow?
  }

  /** The profile key of each identity. An identity never has a second profile, so one such function
      fits a whole run. */
  type Rank = Uid -> nat

  /** A lock's place: first its family, then the row, then the part of the row. An account's rows have the
      place after its lock. */
  datatype Place = Place(family: nat, row: nat, part: nat)

  function PlaceOf(rank: Rank, lock: Lock): Place {
    match lock
    case EventLock(_) => Place(0, 0, 0)
    case AppLock(_) => Place(1, 0, 0)
    case ApplicationLock(_) => Place(2, 0, 0)
    case RawLock(_) => Place(3, 0, 0)
    case ResolvedLock(_) => Place(4, 0, 0)
    case AdvertLock(_) => Place(5, 0, 0)
    case AccountLock(uid) => Place(6, rank(uid), 0)
    case SeriesRow(s) => Place(7, s, 0)
    case EpisodeRow(s, e) => Place(7, s, 1 + e)
    case _ => Place(6, rank(lock.uid), 1)
  }

  predicate Less(a: Place, b: Place) {
    || a.family < b.family
    || (a.family == b.family && (a.row < b.row || (a.row == b.row && a.part < b.part)))
  }

  predicate Before(rank: Rank, a: Lock, b: Lock) {
    Less(PlaceOf(rank, a), PlaceOf(rank, b))
  }

  /** `b` may be taken after `a`: it has a later place, or it is another row of some account. The rows of
      an account are taken in no fixed order. */
  predicate Follows(rank: Rank, a: Lock, b: Lock) {
    if OfAccount(b) then a != b else Before(rank, a, b)
  }

  /** Locks in the order a transaction takes them: along the global order, and each row of an account only
      together with the account's lock. */
  ghost predicate Orderly(rank: Rank, locks: seq<Lock>) {
    && (forall i, j :: 0 <= i < j < |locks| ==> Follows(rank, locks[i], locks[j]))
    && (forall lock :: lock in locks && OfAccount(lock) ==> AccountLock(lock.uid) in locks)
  }

  /** Taking one more lock; a lock already held is not taken again. */
  function Acquired(ghost rank: Rank, held: seq<Lock>, lock: Lock): (locks: seq<Lock>)
    requires Orderly(rank, held)
    requires lock in held || OfAccount(lock) || forall other :: other in held ==> Before(rank, other, lock)
    requires OfAccount(lock) ==> AccountLock(lock.uid) in held
    ensures Orderly(rank, locks)
    ensures locks == if lock in held then held else held + [lock]
  {
    if lock in held then held else held + [lock]
  }

  // Any number of transactions at work together

  /** Each transaction's locks in the order it takes them, and how many it holds so far. A transaction
      releases everything when it ends, and then holds nothing. */
  datatype Work = Work(locks: seq<Lock>, taken: nat, ended: bool)

  ghost predicate Proper(rank: Rank, system: seq<Work>) {
    forall t :: 0 <= t < |system| ==> system[t].taken <= |system[t].locks| && Orderly(rank, system[t].locks)
  }

  predicate Holds(w: Work, lock: Lock) {
    !w.ended && exists i :: 0 <= i < w.taken && i < |w.locks| && w.locks[i] == lock
  }

  /** No lock is held twice. */
  ghost predicate Exclusive(system: seq<Work>) {
    forall t, u, lock ::
      0 <= t < |system| && 0 <= u < |system| && Holds(system[t], lock) && Holds(system[u], lock) ==> t == u
  }

  /** A transaction that is not done wants its next lock. */
  predicate Wants(w: Work) {
    !w.ended && w.taken < |w.locks|
  }

  function Wanted(w: Work): Lock
    requires Wants(w)
  {
    w.locks[w.taken]
  }

  /** `t` waits for `u`: the next lock of `t` is held by `u`. */
  ghost predicate WaitsFor(system: seq<Work>, t: nat, u: nat) {
    t < |system| && u < |system| && t != u && Wants(system[t]) && Holds(system[u], Wanted(system[t]))
  }

  /** `t` can end, or take its next lock. */
  ghost predicate CanMove(system: seq<Work>, t: nat) {
    t < |system| && !system[t].ended && forall u: nat | u < |system| :: !WaitsFor(system, t, u)
  }

  lemma AccountComesFirst(rank: Rank, locks: seq<Lock>, i: nat)
    requires Orderly(rank, locks) && i < |locks| && OfAccount(locks[i])
    ensures exists j :: 0 <= j < i && locks[j] == AccountLock(locks[i].uid)
  {
    var guard := AccountLock(locks[i].uid);
    assert locks[i] in locks && !Follows(rank, locks[i], guard);
    assert forall k :: i < k < |locks| ==> Follows(rank, locks[i], locks[k]);
    var j :| 0 <= j < |locks| && locks[j] == guard;
  }

  /** A transaction about to take a row of an account already holds the account's lock. */
  lemma WanterHoldsAccount(rank: Rank, w: Work)
    requires Orderly(rank, w.locks) && Wants(w) && OfAccount(Wanted(w))
    ensures Holds(w, AccountLock(Wanted(w).uid))
  {
    AccountComesFirst(rank, w.locks, w.taken);
  }

  lemma HolderHoldsAccount(rank: Rank, w: Work, lock: Lock)
    requires Orderly(rank, w.locks) && Holds(w, lock) && OfAccount(lock)
    ensures Holds(w, AccountLock(lock.uid))
  {
    var i :| 0 <= i < w.taken && i < |w.locks| && w.locks[i] == lock;
    AccountComesFirst(rank, w.locks, i);
  }

  /** Nobody ever waits for a row of an account: both transactions would hold the account's lock. */
  lemma NobodyWaitsForAccountRows(rank: Rank, system: seq<Work>, t: nat, u: nat)
    requires Proper(rank, system) && Exclusive(system) && WaitsFor(system, t, u)
    ensures !OfAccount(Wanted(system[t]))
  {
    if OfAccount(Wanted(system[t])) {
      WanterHoldsAccount(rank, system[t]);
      HolderHoldsAccount(rank, system[u], Wanted(system[t]));
      assert false;
    }
  }

  /** The transaction may have to wait: its next lock is no row of an account. */
  predicate MayWait(w: Work) {
    Wants(w) && !OfAccount(Wanted(w))
  }

  /** Who waits for a transaction wants an earlier lock than that transaction may wait for itself. */
  lemma WaitingAscends(rank: Rank, system: seq<Work>, t: nat, u: nat)
    requires Proper(rank, system) && Exclusive(system) && WaitsFor(system, t, u) && MayWait(system[u])
    ensures MayWait(system[t]) && Before(rank, Wanted(system[t]), Wanted(system[u]))
  {
    NobodyWaitsForAccountRows(rank, system, t, u);
    var lock := Wanted(system[t]);
    var i :| 0 <= i < system[u].taken && i < |system[u].locks| && system[u].locks[i] == lock;
    assert Follows(rank, system[u].locks[i], system[u].locks[system[u].taken]);
  }

  ghost predicate Chain(system: seq<Work>, ts: seq<nat>) {
    forall i :: 0 <= i < |ts| - 1 ==> WaitsFor(system, ts[i], ts[i + 1])
  }

  lemma {:induction false} ChainAscends(rank: Rank, system: seq<Work>, ts: seq<nat>)
    requires Proper(rank, system) && Exclusive(system) && |ts| >= 2 && Chain(system, ts)
    requires ts[|ts| - 1] < |system| && MayWait(system[ts[|ts| - 1]])
    ensures WaitsFor(system, ts[0], ts[1]) && MayWait(system[ts[0]])
    ensures Before(rank, Wanted(system[ts[0]]), Wanted(system[ts[|ts| - 1]]))
    decreases |ts|
  {
    var last := |ts| - 1;
    assert WaitsFor(system, ts[last - 1], ts[last]);
    WaitingAscends(rank, system, ts[last - 1], ts[last]);
    if |ts| > 2 {
      ChainAscends(rank, system, ts[..last]);
    }
  }

  /** Transactions that take their locks along the order never wait for each other in a cycle. */
  lemma NoWaitCycle(rank: Rank, system: seq<Work>, ts: seq<nat>)
    requires Proper(rank, system) && Exclusive(system) && |ts| >= 2 && Chain(system, ts)
    ensures !WaitsFor(system, ts[|ts| - 1], ts[0])
  {
    if WaitsFor(system, ts[|ts| - 1], ts[0]) {
      NobodyWaitsForAccountRows(rank, system, ts[|ts| - 1], ts[0]);
      ChainAscends(rank, system, ts);
      WaitingAscends(rank, system, ts[|ts| - 1], ts[0]);
      assert false;
    }
  }

  /** While some transaction has not ended, some transaction can move. `seen` are transactions that all
      want an earlier lock than `t`. */
  lemma {:induction false} SomeoneCanMove(rank: Rank, system: seq<Work>, t: nat, seen: set<nat>) returns (mover: nat)
    requires Proper(rank, system) && Exclusive(system) && t < |system| && !system[t].ended && t !in seen
    requires forall v :: v in seen ==> v < |system|
    requires forall v :: v in seen && MayWait(system[t]) ==>
               MayWait(system[v]) && Before(rank, Wanted(system[v]), Wanted(system[t]))
    ensures CanMove(system, mover)
    decreases |system| - |seen|
  {
    Bounded(seen + {t}, |system|);
    if u: nat :| u < |system| && WaitsFor(system, t, u) {
      if MayWait(system[u]) {
        WaitingAscends(rank, system, t, u);
        mover := SomeoneCanMove(rank, system, u, seen + {t});
      } else {
        mover := u;
        forall v: nat | v < |system| ensures !WaitsFor(system, u, v) {
          if WaitsFor(system, u, v) {
            NobodyWaitsForAccountRows(rank, system, u, v);
          }
        }
      }
    } else {
      mover := t;
    }
  }

  lemma {:induction false} Bounded(s: set<nat>, n: nat)
    requires forall x :: x in s ==> x < n
    ensures |s| <= n
    decreases n
  {
    if n > 0 {
      Bounded(s - {n - 1}, n - 1);
    } else {
      assert s == {};
    }
  }

  // Runs of such a system

  datatype Move = Begin(locks: seq<Lock>) | Take(t: nat) | End(t: nat)

  /** A transaction begins with some orderly plan; it takes its next lock when nobody holds it; it ends
      when it has taken all. */
  ghost predicate Possible(rank: Rank, system: seq<Work>, move: Move) {
    match move
    case Begin(locks) => Orderly(rank, locks)
    case Take(t) => t < |system| && Wants(system[t]) && forall u: nat | u < |system| :: !WaitsFor(system, t, u)
    case End(t) => t < |system| && !system[t].ended && system[t].taken == |system[t].locks|
  }

  function Moved(system: seq<Work>, move: Move): seq<Work> {
    match move
    case Begin(locks) => system + [Work(locks, 0, false)]
    case Take(t) => if t < |system| then system[t := system[t].(taken := system[t].taken + 1)] else system
    case End(t) => if t < |system| then system[t := system[t].(ended := true)] else system
  }

  ghost predicate Reaches(rank: Rank, before: seq<Work>, moves: seq<Move>, after: seq<Work>)
    decreases |moves|
  {
    if moves == [] then before == after
    else Possible(rank, before, moves[0]) && Reaches(rank, Moved(before, moves[0]), moves[1..], after)
  }

  lemma MoveKeepsProper(rank: Rank, system: seq<Work>, move: Move)
    requires Proper(rank, system) && Exclusive(system) && Possible(rank, system, move)
    ensures Proper(rank, Moved(system, move)) && Exclusive(Moved(system, move))
  {
    var after := Moved(system, move);
    forall t: nat, lock | t < |after| && Holds(after[t], lock)
      ensures t < |system|
      ensures Holds(system[t], lock) || (move == Take(t) && Wants(system[t]) && lock == Wanted(system[t]))
    {
      if move == Take(t) {
        var i :| 0 <= i < after[t].taken && i < |after[t].locks| && after[t].locks[i] == lock;
        assert i < system[t].taken ==> Holds(system[t], lock);
      }
    }
    forall t: nat, u: nat, lock | t < |after| && u < |after| && Holds(after[t], lock) && Holds(after[u], lock)
      ensures t == u
    {
      assert move.Take? && t == move.t && u < |system| ==> !WaitsFor(system, t, u);
      assert move.Take? && u == move.t && t < |system| ==> !WaitsFor(system, u, t);
    }
  }

  lemma {:induction false} ReachedIsProper(rank: Rank, before: seq<Work>, moves: seq<Move>, after: seq<Work>)
    requires Proper(rank, before) && Exclusive(before) && Reaches(rank, before, moves, after)
    ensures Proper(rank, after) && Exclusive(after)
    decreases |moves|
  {
    if moves != [] {
      MoveKeepsProper(rank, before, moves[0]);
      ReachedIsProper(rank, Moved(before, moves[0]), moves[1..], after);
    }
  }

  /** However transactions with orderly locks begin, proceed and end: while one has not ended, one of them
      can take its next lock or end. */
  lemma NothingStandsStill(rank: Rank, moves: seq<Move>, system: seq<Work>, t: nat)
    requires Reaches(rank, [], moves, system) && t < |system| && !system[t].ended
    ensures exists mover: nat :: Possible(rank, system, Take(mover)) || Possible(rank, system, End(mover))
  {
    ReachedIsProper(rank, [], moves, system);
    var mover := SomeoneCanMove(rank, system, t, {});
    assert Possible(rank, system, Take(mover)) || Possible(rank, system, End(mover));
  }
}
