/** The wallet activity page: the newest ledger lines of an account with the balance after each. */
module Activity {
  import opened Wrappers
  import opened Registry
  import opened Packs
  import opened Tables
  import opened Purchases
  import opened Unlocks
  import opened Accounts
  import opened Invariants
  import opened Protocol
  import opened Runs
  import opened Lifecycles

  const MAX_ACTIVITY_ENTRIES := 20

  datatype ActivityLine = ActivityLine(line: Entry, balanceAfter: int)

  function Sum(lines: seq<Entry>): int {
    if lines == [] then 0 else Sum(lines[..|lines| - 1]) + lines[|lines| - 1].amount
  }

  ghost predicate Chronological(lines: seq<Entry>) {
    forall i, j :: 0 <= i < j < |lines| ==> lines[i].createdAt <= lines[j].createdAt
  }

  ghost predicate StrictlyChronological(lines: seq<Entry>) {
    forall i, j :: 0 <= i < j < |lines| ==> lines[i].createdAt < lines[j].createdAt
  }

  /** A query for a wallet's lines by time; lines of one instant may come in either order. */
  ghost predicate Answers(rows: seq<Entry>, ledger: seq<Entry>, w: WalletId) {
    Chronological(rows) && multiset(rows) == multiset(LinesOf(ledger, w))
  }

  predicate InRange(line: Entry, running: int) {
    0 <= running <= MAX_BALANCE_COINS && -MAX_ENTRY_COINS <= line.amount <= MAX_ENTRY_COINS
  }

  function Shorter(a: nat, b: nat): nat { if a < b then a else b }

  /** `rows` are the wallet's lines as queried. The page raises exactly when some running balance is out
      of range; otherwise it is the newest lines first, each with the sum of all lines up to it. */
  method ListWalletActivity(rows: seq<Entry>) returns (page: Option<seq<ActivityLine>>, hasMore: bool)
    ensures page.Some? <==> forall n :: 0 <= n < |rows| ==> InRange(rows[n], Sum(rows[..n + 1]))
    ensures page.Some? ==>
      && |page.value| == Shorter(MAX_ACTIVITY_ENTRIES, |rows|)
      && (forall k :: 0 <= k < |page.value| ==>
            page.value[k] == ActivityLine(rows[|rows| - 1 - k], Sum(rows[..|rows| - k])))
      && (hasMore <==> |rows| > |page.value|)
  {
    var running := 0;
    var annotated: seq<ActivityLine> := [];
    hasMore := false;
    for i := 0 to |rows|
      invariant running == Sum(rows[..i]) && |annotated| == i
      invariant forall n :: 0 <= n < i ==>
        annotated[n] == ActivityLine(rows[n], Sum(rows[..n + 1])) && InRange(rows[n], Sum(rows[..n + 1]))
    {
      assert rows[..i + 1][..i] == rows[..i];
      running := running + rows[i].amount;
      if !InRange(rows[i], running) {
        assert !InRange(rows[i], Sum(rows[..i + 1]));
        return None, false;
      }
      annotated := annotated + [ActivityLine(rows[i], running)];
    }
    var newest := annotated[|annotated| - Shorter(MAX_ACTIVITY_ENTRIES, |annotated|)..];
    hasMore := |annotated| > MAX_ACTIVITY_ENTRIES;
    var entries := seq(|newest|, k requires 0 <= k < |newest| => newest[|newest| - 1 - k]);
    return Some(entries), hasMore;
  }

  // The lines of one wallet and its balance

  lemma SumAppended(lines: seq<Entry>, line: Entry)
    ensures Sum(lines + [line]) == Sum(lines) + line.amount
  {
    assert (lines + [line])[..|lines|] == lines;
  }

  lemma {:induction false} SumIsBalance(ledger: seq<Entry>, w: WalletId)
    ensures Sum(LinesOf(ledger, w)) == Balance(ledger, w)
  {
    if ledger != [] {
      var last := |ledger| - 1;
      SumIsBalance(ledger[..last], w);
      SumAppended(LinesOf(ledger[..last], w), ledger[last]);
      assert LinesOf(ledger[..last], w) + [] == LinesOf(ledger[..last], w);
    }
  }

  /** The ledger's length when it first had `n` lines of the wallet. */
  function Moment(ledger: seq<Entry>, w: WalletId, n: nat): (m: nat)
    requires n <= |LinesOf(ledger, w)|
    ensures m <= |ledger| && LinesOf(ledger[..m], w) == LinesOf(ledger, w)[..n]
  {
    if ledger == [] then 0
    else if n == |LinesOf(ledger, w)| then
      assert ledger[..|ledger|] == ledger;
      |ledger|
    else
      var last := |ledger| - 1;
      var m := Moment(ledger[..last], w, n);
      assert ledger[..last][..m] == ledger[..m];
      m
  }

  lemma {:induction false} LinesAreOfWallet(ledger: seq<Entry>, w: WalletId)
    ensures forall line :: line in LinesOf(ledger, w) ==> line in ledger && line.wallet == w
  {
    if ledger != [] {
      LinesAreOfWallet(ledger[..|ledger| - 1], w);
    }
  }

  lemma LastIsNotEarlier(rows: seq<Entry>, j: nat)
    requires Chronological(rows) && j < |rows|
    ensures rows[j].createdAt <= rows[|rows| - 1].createdAt
  {
  }

  lemma OnlyLastIsAsLate(lines: seq<Entry>, k: nat)
    requires StrictlyChronological(lines) && k < |lines|
    ensures lines[|lines| - 1].createdAt <= lines[k].createdAt ==> k == |lines| - 1
  {
  }

  lemma SameLast(rows: seq<Entry>, lines: seq<Entry>)
    requires Chronological(rows) && StrictlyChronological(lines)
    requires |rows| == |lines| > 0
    requires rows[|rows| - 1] in lines && lines[|lines| - 1] in rows
    ensures rows[|rows| - 1] == lines[|lines| - 1]
  {
    var last := |lines| - 1;
    var j :| 0 <= j <= last && rows[j] == lines[last];
    var k :| 0 <= k <= last && lines[k] == rows[last];
    LastIsNotEarlier(rows, j);
    OnlyLastIsAsLate(lines, k);
  }

  lemma SameElements(a: seq<Entry>, b: seq<Entry>)
    requires multiset(a) == multiset(b)
    ensures |a| == |b| && forall x :: x in a <==> x in b
  {
    assert |a| == |multiset(a)| == |multiset(b)| == |b|;
    forall x ensures x in a <==> x in b {
      assert x in a <==> x in multiset(a);
      assert x in b <==> x in multiset(b);
    }
  }

  lemma WithoutLast(a: seq<Entry>)
    requires a != []
    ensures multiset(a[..|a| - 1]) == multiset(a) - multiset{a[|a| - 1]}
  {
    assert a == a[..|a| - 1] + [a[|a| - 1]];
  }

  /** A chronological answer without ties is the ledger's own order. */
  lemma {:induction false} OneOrder(rows: seq<Entry>, lines: seq<Entry>)
    requires Chronological(rows) && StrictlyChronological(lines) && multiset(rows) == multiset(lines)
    ensures rows == lines
    decreases |lines|
  {
    SameElements(rows, lines);
    if lines != [] {
      var last := |lines| - 1;
      SameLast(rows, lines);
      var earlier, shorter := rows[..last], lines[..last];
      assert multiset(earlier) == multiset(shorter) by {
        WithoutLast(rows);
        WithoutLast(lines);
      }
      OneOrder(earlier, shorter);
      assert rows == earlier + [rows[last]] && lines == shorter + [lines[last]];
    }
  }

  /** What the page would show as the balance after the wallet's n-th line is the balance the wallet
      had at that moment of the ledger, and always in range. */
  lemma RunningIsHistorical(ledger: seq<Entry>, wallets: Wallets, w: WalletId, n: nat)
    requires LinesOk(ledger, wallets) && Solvent(ledger) && n < |LinesOf(ledger, w)|
    ensures Sum(LinesOf(ledger, w)[..n + 1]) == Balance(ledger[..Moment(ledger, w, n + 1)], w)
    ensures InRange(LinesOf(ledger, w)[n], Sum(LinesOf(ledger, w)[..n + 1]))
  {
    var m := Moment(ledger, w, n + 1);
    SumIsBalance(ledger[..m], w);
    assert SolventAt(ledger, m, w);
    LinesAreOfWallet(ledger, w);
    var line := LinesOf(ledger, w)[n];
    assert line in LinesOf(ledger, w);
    var i :| 0 <= i < |ledger| && ledger[i] == line;
  }

  /** In every reachable state, as long as no two lines of the wallet carry the same time, the page never
      raises, is the ledger's own order, and its newest line shows the current balance. */
  lemma PageIsExact(s: Tables, w: WalletId, rows: seq<Entry>)
    requires Inv(s) && Answers(rows, s.ledger, w) && StrictlyChronological(LinesOf(s.ledger, w))
    ensures rows == LinesOf(s.ledger, w)
    ensures forall n :: 0 <= n < |rows| ==> InRange(rows[n], Sum(rows[..n + 1]))
    ensures rows != [] ==> Sum(rows[..|rows|]) == Balance(s.ledger, w)
    ensures rows == [] ==> Balance(s.ledger, w) == 0
  {
    OneOrder(rows, LinesOf(s.ledger, w));
    forall n | 0 <= n < |rows| ensures InRange(rows[n], Sum(rows[..n + 1])) {
      RunningIsHistorical(s.ledger, s.wallets, w, n);
    }
    SumIsBalance(s.ledger, w);
    assert rows[..|rows|] == rows;
  }

  lemma TwoLines(a: Entry, b: Entry, w: WalletId)
    requires a.wallet == w && b.wallet == w
    ensures LinesOf([a] + [b], w) == [a, b]
  {
    var none: seq<Entry> := [];
    LinesAppended(none, a, w);
    assert none + [a] == [a] && LinesOf(none, w) == none;
    LinesAppended([a], b, w);
  }

  // Times over runs

  ghost predicate Timed(s: Tables) {
    Chronological(s.ledger) && forall line :: line in s.ledger ==> line.createdAt <= s.clock
  }

  /** Nothing, or one line stamped with the present time. */
  ghost predicate Stamped(s: Tables, after: Tables) {
    && after.clock == s.clock
    && (|| after.ledger == s.ledger
        || exists line: Entry :: line.createdAt == s.clock && after.ledger == s.ledger + [line])
  }

  lemma DeliveryIsStamped(s: Tables, e: Event, receipt: Uuid)
    ensures Stamped(s, After(s, Fulfill(s, e, receipt)))
  {
    FulfillMovesCoinsIff(s, e, receipt);
    if Creditable(s, e, receipt) {
      FulfillCreditsWorth(s, e, receipt);
    }
  }

  lemma SpendIsStamped(s: Tables, r: Request)
    ensures Stamped(s, After(s, UnlockEpisode(s, r)))
  {
    UnlockMovesCoinsIff(s, r);
  }

  lemma CorrectionIsStamped(s: Tables, w: WalletId, reference: Uuid, amount: int)
    ensures Stamped(s, Corrected(s, w, reference, amount))
  {
  }

  lemma StampedKeepsTimes(s: Tables, after: Tables)
    requires Timed(s) && Stamped(s, after)
    ensures Timed(after)
  {
  }

  lemma DeliveryKeepsTimes(s: Tables, e: Event, receipt: Uuid)
    requires Timed(s)
    ensures Timed(After(s, Fulfill(s, e, receipt)))
  {
    DeliveryIsStamped(s, e, receipt);
    StampedKeepsTimes(s, After(s, Fulfill(s, e, receipt)));
  }

  lemma SpendKeepsTimes(s: Tables, r: Request)
    requires Timed(s)
    ensures Timed(After(s, UnlockEpisode(s, r)))
  {
    SpendIsStamped(s, r);
    StampedKeepsTimes(s, After(s, UnlockEpisode(s, r)));
  }

  lemma CorrectionKeepsTimes(s: Tables, w: WalletId, reference: Uuid, amount: int)
    requires Timed(s)
    ensures Timed(Corrected(s, w, reference, amount))
  {
    CorrectionIsStamped(s, w, reference, amount);
    StampedKeepsTimes(s, Corrected(s, w, reference, amount));
  }

  lemma OtherKeepsTimes(s: Tables, after: Tables)
    requires Timed(s) && after.ledger == s.ledger && s.clock <= after.clock
    ensures Timed(after)
  {
  }

  lemma StepKeepsTimes(s: Tables, step: Step)
    requires Timed(s)
    ensures Timed(Next(s, step))
  {
    if step.Deliver? {
      DeliveryKeepsTimes(s, step.event, step.receipt);
    } else if step.Spend? {
      SpendKeepsTimes(s, step.request);
    } else if step.Correct? {
      CorrectionKeepsTimes(s, step.wallet, step.reference, step.amount);
    } else {
      ClockNeverRunsBack(s, step);
      OnlyMoneyStepsTouchLedger(s, step);
      OtherKeepsTimes(s, Next(s, step));
    }
  }

  /** Over all runs the ledger's times never run against its order, so a wallet's lines are strictly
      chronological exactly when no two of them carry the same time. */
  lemma {:induction false} LedgerIsChronological(s: Tables, steps: seq<Step>)
    requires Timed(s)
    ensures Timed(Run(s, steps))
    decreases |steps|
  {
    if steps != [] {
      StepKeepsTimes(s, steps[0]);
      LedgerIsChronological(Next(s, steps[0]), steps[1..]);
    }
  }

  ghost predicate Untied(lines: seq<Entry>) {
    forall i, j :: 0 <= i < j < |lines| ==> lines[i].createdAt != lines[j].createdAt
  }

  lemma {:induction false} LinesAreChronological(ledger: seq<Entry>, w: WalletId)
    requires Chronological(ledger)
    ensures Chronological(LinesOf(ledger, w))
    ensures StrictlyChronological(LinesOf(ledger, w)) <==> Untied(LinesOf(ledger, w))
  {
    if ledger != [] {
      var last := |ledger| - 1;
      LinesAreChronological(ledger[..last], w);
      LinesAreOfWallet(ledger[..last], w);
      forall line | line in LinesOf(ledger[..last], w) ensures line.createdAt <= ledger[last].createdAt {
        var i :| 0 <= i < last && ledger[i] == line;
      }
      assert Chronological(LinesOf(ledger, w)) by {
        var lines := LinesOf(ledger, w);
        forall i, j | 0 <= i < j < |lines| ensures lines[i].createdAt <= lines[j].createdAt {
          if j == |lines| - 1 && ledger[last].wallet == w {
            assert lines[i] in LinesOf(ledger[..last], w);
          }
        }
      }
    }
  }

  /** The page of any account in any state of any run from the empty database. */
  lemma PageOverRuns(s: Tables, steps: seq<Step>, w: WalletId, rows: seq<Entry>)
    requires Initial(s) && Answers(rows, Run(s, steps).ledger, w) && Untied(LinesOf(Run(s, steps).ledger, w))
    ensures forall n :: 0 <= n < |rows| ==> InRange(rows[n], Sum(rows[..n + 1]))
    ensures Sum(rows) == Balance(Run(s, steps).ledger, w)
  {
    InitialIsOk(s);
    RunKeepsInv(s, steps);
    LedgerIsChronological(s, steps);
    LinesAreChronological(Run(s, steps).ledger, w);
    PageIsExact(Run(s, steps), w, rows);
    SumIsBalance(Run(s, steps).ledger, w);
  }
}
