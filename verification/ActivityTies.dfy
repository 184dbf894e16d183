/** When the wallet activity page can raise: exactly when lines of one instant, taken in the worst order,
    leave the range of a balance. */
module ActivityTies {
  import opened Packs
  import opened Tables
  import opened Invariants
  import opened Protocol
  import opened Lifecycles
  import opened Activity

  // Sums of lines

  function Weigh(lines: seq<Entry>, weight: Entry -> int): int {
    if lines == [] then 0 else Weigh(lines[..|lines| - 1], weight) + weight(lines[|lines| - 1])
  }

  function Amounts(): Entry -> int { (line: Entry) => line.amount }

  /** The amounts of the lines before an instant. */
  function Earlier(t: Instant): Entry -> int { (line: Entry) => if line.createdAt < t then line.amount else 0 }

  /** The amounts of chosen lines of an instant. */
  function At(t: Instant, chosen: Entry -> bool): Entry -> int {
    (line: Entry) => if line.createdAt == t && chosen(line) then line.amount else 0
  }

  function Debit(): Entry -> bool { (line: Entry) => line.amount < 0 }

  function Credit(): Entry -> bool { (line: Entry) => line.amount > 0 }

  lemma {:induction false} SumIsWeight(lines: seq<Entry>)
    ensures Sum(lines) == Weigh(lines, Amounts())
  {
    if lines != [] {
      SumIsWeight(lines[..|lines| - 1]);
    }
  }

  lemma {:induction false} WeighJoined(a: seq<Entry>, b: seq<Entry>, weight: Entry -> int)
    ensures Weigh(a + b, weight) == Weigh(a, weight) + Weigh(b, weight)
  {
    if b == [] {
      assert a + b == a;
    } else {
      var last := |b| - 1;
      assert (a + b)[..|a| + last] == a + b[..last];
      WeighJoined(a, b[..last], weight);
    }
  }

  lemma WithoutOne(a: seq<Entry>, b: seq<Entry>, k: nat)
    requires multiset(a) == multiset(b) && a != [] && k < |b| && b[k] == a[|a| - 1]
    ensures multiset(a[..|a| - 1]) == multiset(b[..k] + b[k + 1..])
  {
    WithoutLast(a);
    assert b == b[..k] + [b[k]] + b[k + 1..];
  }

  lemma WeighWithout(b: seq<Entry>, k: nat, weight: Entry -> int)
    requires k < |b|
    ensures Weigh(b, weight) == Weigh(b[..k] + b[k + 1..], weight) + weight(b[k])
  {
    var before, at, after := b[..k], [b[k]], b[k + 1..];
    assert b == (before + at) + after;
    WeighJoined(before + at, after, weight);
    WeighJoined(before, at, weight);
    WeighJoined(before, after, weight);
    assert at[..0] == [];
  }

  /** The order of the lines does not matter to a sum. */
  lemma {:induction false} WeighPermuted(a: seq<Entry>, b: seq<Entry>, weight: Entry -> int)
    requires multiset(a) == multiset(b)
    ensures Weigh(a, weight) == Weigh(b, weight)
    decreases |a|
  {
    SameElements(a, b);
    if a != [] {
      assert a[|a| - 1] in b;
      var k :| 0 <= k < |b| && b[k] == a[|a| - 1];
      WithoutOne(a, b, k);
      WeighPermuted(a[..|a| - 1], b[..k] + b[k + 1..], weight);
      WeighWithout(b, k, weight);
    }
  }

  /** Sums compare as their terms do. */
  lemma {:induction false} WeighBelow(lines: seq<Entry>, f: Entry -> int, g: Entry -> int, h: Entry -> int)
    requires forall line :: line in lines ==> f(line) + g(line) <= h(line)
    ensures Weigh(lines, f) + Weigh(lines, g) <= Weigh(lines, h)
  {
    if lines != [] {
      WeighBelow(lines[..|lines| - 1], f, g, h);
    }
  }

  lemma {:induction false} WeighAbove(lines: seq<Entry>, f: Entry -> int, g: Entry -> int, h: Entry -> int)
    requires forall line :: line in lines ==> h(line) <= f(line) + g(line)
    ensures Weigh(lines, h) <= Weigh(lines, f) + Weigh(lines, g)
  {
    if lines != [] {
      WeighAbove(lines[..|lines| - 1], f, g, h);
    }
  }

  lemma {:induction false} WeighSign(lines: seq<Entry>, weight: Entry -> int)
    ensures (forall line :: line in lines ==> weight(line) == 0) ==> Weigh(lines, weight) == 0
    ensures (forall line :: line in lines ==> weight(line) <= 0) ==> Weigh(lines, weight) <= 0
    ensures (forall line :: line in lines ==> weight(line) >= 0) ==> Weigh(lines, weight) >= 0
  {
    if lines != [] {
      WeighSign(lines[..|lines| - 1], weight);
    }
  }

  // The condition

  /** The balance before an instant, with all debits of the instant, is below zero; or with all its credits
      it is above the limit. */
  ghost predicate Overruns(lines: seq<Entry>, t: Instant) {
    || Weigh(lines, Earlier(t)) + Weigh(lines, At(t, Debit())) < 0
    || Weigh(lines, Earlier(t)) + Weigh(lines, At(t, Credit())) > MAX_BALANCE_COINS
  }

  ghost predicate Raises(rows: seq<Entry>) {
    exists n :: 0 <= n < |rows| && !InRange(rows[n], Sum(rows[..n + 1]))
  }

  ghost predicate Bounded(lines: seq<Entry>) {
    forall line :: line in lines ==> -MAX_ENTRY_COINS <= line.amount <= MAX_ENTRY_COINS
  }

  // A page that raises overruns

  lemma NotBelowDebits(prefix: seq<Entry>, suffix: seq<Entry>, t: Instant)
    requires forall line :: line in prefix ==> line.createdAt <= t
    requires forall line :: line in suffix ==> line.createdAt >= t
    ensures Weigh(prefix + suffix, Earlier(t)) + Weigh(prefix + suffix, At(t, Debit())) <= Sum(prefix)
  {
    WeighJoined(prefix, suffix, Earlier(t));
    WeighJoined(prefix, suffix, At(t, Debit()));
    WeighSign(suffix, Earlier(t));
    WeighSign(suffix, At(t, Debit()));
    SumIsWeight(prefix);
    WeighBelow(prefix, Earlier(t), At(t, Debit()), Amounts());
  }

  lemma NotAboveCredits(prefix: seq<Entry>, suffix: seq<Entry>, t: Instant)
    requires forall line :: line in prefix ==> line.createdAt <= t
    requires forall line :: line in suffix ==> line.createdAt >= t
    ensures Sum(prefix) <= Weigh(prefix + suffix, Earlier(t)) + Weigh(prefix + suffix, At(t, Credit()))
  {
    WeighJoined(prefix, suffix, Earlier(t));
    WeighJoined(prefix, suffix, At(t, Credit()));
    WeighSign(suffix, Earlier(t));
    WeighSign(suffix, At(t, Credit()));
    SumIsWeight(prefix);
    WeighAbove(prefix, Earlier(t), At(t, Credit()), Amounts());
  }

  lemma SplitAt(rows: seq<Entry>, n: nat)
    requires Chronological(rows) && n < |rows|
    ensures forall line :: line in rows[..n + 1] ==> line.createdAt <= rows[n].createdAt
    ensures forall line :: line in rows[n + 1..] ==> line.createdAt >= rows[n].createdAt
    ensures rows == rows[..n + 1] + rows[n + 1..]
  {
  }

  /** A sum over a prefix lies between the extremes of the instant of its last line. */
  lemma PrefixIsBetween(rows: seq<Entry>, n: nat)
    requires Chronological(rows) && n < |rows|
    ensures var t := rows[n].createdAt;
            && Weigh(rows, Earlier(t)) + Weigh(rows, At(t, Debit())) <= Sum(rows[..n + 1])
            && Sum(rows[..n + 1]) <= Weigh(rows, Earlier(t)) + Weigh(rows, At(t, Credit()))
  {
    SplitAt(rows, n);
    NotBelowDebits(rows[..n + 1], rows[n + 1..], rows[n].createdAt);
    NotAboveCredits(rows[..n + 1], rows[n + 1..], rows[n].createdAt);
  }

  lemma RaisingOverruns(rows: seq<Entry>, lines: seq<Entry>)
    requires Chronological(rows) && multiset(rows) == multiset(lines) && Bounded(lines) && Raises(rows)
    ensures exists t :: Overruns(lines, t)
  {
    var n :| 0 <= n < |rows| && !InRange(rows[n], Sum(rows[..n + 1]));
    var t := rows[n].createdAt;
    SameElements(rows, lines);
    assert rows[n] in lines;
    PrefixIsBetween(rows, n);
    WeighPermuted(rows, lines, Earlier(t));
    WeighPermuted(rows, lines, At(t, Debit()));
    WeighPermuted(rows, lines, At(t, Credit()));
    assert Overruns(lines, t);
  }

  // An overrun has an order that raises

  function Select(lines: seq<Entry>, keep: Entry -> bool): seq<Entry> {
    if lines == [] then []
    else
      var last := lines[|lines| - 1];
      Select(lines[..|lines| - 1], keep) + (if keep(last) then [last] else [])
  }

  lemma {:induction false} SelectedMembers(lines: seq<Entry>, keep: Entry -> bool)
    ensures forall line :: line in Select(lines, keep) <==> line in lines && keep(line)
  {
    if lines != [] {
      SelectedMembers(lines[..|lines| - 1], keep);
      assert lines == lines[..|lines| - 1] + [lines[|lines| - 1]];
    }
  }

  lemma {:induction false} SelectedOrder(lines: seq<Entry>, keep: Entry -> bool)
    requires Chronological(lines)
    ensures Chronological(Select(lines, keep))
  {
    if lines != [] {
      var last := |lines| - 1;
      SelectedOrder(lines[..last], keep);
      SelectedMembers(lines[..last], keep);
      JoinedOrder(Select(lines[..last], keep), if keep(lines[last]) then [lines[last]] else []);
    }
  }

  lemma JoinedOrder(a: seq<Entry>, b: seq<Entry>)
    requires Chronological(a) && Chronological(b)
    requires forall x, y :: x in a && y in b ==> x.createdAt <= y.createdAt
    ensures Chronological(a + b)
  {
    forall i, j | 0 <= i < j < |a + b| ensures (a + b)[i].createdAt <= (a + b)[j].createdAt {
      if i < |a| <= j {
        assert a[i] in a && b[j - |a|] in b;
      }
    }
  }

  lemma {:induction false} SelectedWeight(
    lines: seq<Entry>, keep: Entry -> bool, full: Entry -> int, part: Entry -> int)
    requires forall line :: line in lines ==> part(line) == if keep(line) then full(line) else 0
    ensures Weigh(Select(lines, keep), full) == Weigh(lines, part)
  {
    if lines != [] {
      var last := |lines| - 1;
      SelectedWeight(lines[..last], keep, full, part);
      WeighJoined(Select(lines[..last], keep), if keep(lines[last]) then [lines[last]] else [], full);
    }
  }

  function Part(t: Instant, first: Entry -> bool, k: nat): Entry -> bool {
    (line: Entry) =>
      match k
      case 0 => line.createdAt < t
      case 1 => line.createdAt == t && first(line)
      case 2 => line.createdAt == t && !first(line)
      case _ => line.createdAt > t
  }

  function Selected(lines: seq<Entry>, t: Instant, first: Entry -> bool, k: nat): seq<Entry> {
    Select(lines, Part(t, first, k))
  }

  /** The lines by time, except that of one instant the chosen ones come first. */
  function Reordered(lines: seq<Entry>, t: Instant, first: Entry -> bool): seq<Entry> {
    (Selected(lines, t, first, 0) + Selected(lines, t, first, 1))
    + (Selected(lines, t, first, 2) + Selected(lines, t, first, 3))
  }

  /** Disjoint selections make up the selection by either. */
  lemma {:induction false} SelectedEither(
    lines: seq<Entry>, p: Entry -> bool, q: Entry -> bool, either: Entry -> bool)
    requires forall line :: !(p(line) && q(line)) && (either(line) <==> p(line) || q(line))
    ensures multiset(Select(lines, p) + Select(lines, q)) == multiset(Select(lines, either))
  {
    if lines != [] {
      SelectedEither(lines[..|lines| - 1], p, q, either);
    }
  }

  lemma {:induction false} SelectedAll(lines: seq<Entry>, all: Entry -> bool)
    requires forall line :: all(line)
    ensures Select(lines, all) == lines
  {
    if lines != [] {
      SelectedAll(lines[..|lines| - 1], all);
      assert lines == lines[..|lines| - 1] + [lines[|lines| - 1]];
    }
  }

  lemma ReorderedIsPermutation(lines: seq<Entry>, t: Instant, first: Entry -> bool)
    ensures multiset(Reordered(lines, t, first)) == multiset(lines)
  {
    var early := (line: Entry) => line.createdAt < t || (line.createdAt == t && first(line));
    var late := (line: Entry) => line.createdAt > t || (line.createdAt == t && !first(line));
    var all := (line: Entry) => true;
    SelectedEither(lines, Part(t, first, 0), Part(t, first, 1), early);
    SelectedEither(lines, Part(t, first, 2), Part(t, first, 3), late);
    SelectedEither(lines, early, late, all);
    SelectedAll(lines, all);
  }

  lemma ReorderedIsChronological(lines: seq<Entry>, t: Instant, first: Entry -> bool)
    requires Chronological(lines)
    ensures Chronological(Reordered(lines, t, first))
  {
    forall k: nat | k < 4
      ensures Chronological(Selected(lines, t, first, k))
      ensures forall line :: line in Selected(lines, t, first, k) ==> Part(t, first, k)(line)
    {
      SelectedOrder(lines, Part(t, first, k));
      SelectedMembers(lines, Part(t, first, k));
    }
    JoinedOrder(Selected(lines, t, first, 0), Selected(lines, t, first, 1));
    JoinedOrder(Selected(lines, t, first, 2), Selected(lines, t, first, 3));
    JoinedOrder(Selected(lines, t, first, 0) + Selected(lines, t, first, 1),
                Selected(lines, t, first, 2) + Selected(lines, t, first, 3));
  }

  /** The balance after the chosen lines. */
  lemma ChosenSum(lines: seq<Entry>, t: Instant, first: Entry -> bool)
    ensures Sum(Selected(lines, t, first, 0) + Selected(lines, t, first, 1))
         == Weigh(lines, Earlier(t)) + Weigh(lines, At(t, first))
  {
    var before, chosen := Selected(lines, t, first, 0), Selected(lines, t, first, 1);
    SumIsWeight(before + chosen);
    WeighJoined(before, chosen, Amounts());
    SelectedWeight(lines, Part(t, first, 0), Amounts(), Earlier(t));
    SelectedWeight(lines, Part(t, first, 1), Amounts(), At(t, first));
  }

  lemma ReorderedRaises(lines: seq<Entry>, t: Instant, first: Entry -> bool)
    requires !(0 <= Weigh(lines, Earlier(t)) + Weigh(lines, At(t, first)) <= MAX_BALANCE_COINS)
    ensures Raises(Reordered(lines, t, first))
  {
    var prefix := Selected(lines, t, first, 0) + Selected(lines, t, first, 1);
    var rows := Reordered(lines, t, first);
    ChosenSum(lines, t, first);
    assert prefix != [];
    var n := |prefix| - 1;
    assert rows[..n + 1] == prefix;
    assert !InRange(rows[n], Sum(rows[..n + 1]));
  }

  lemma OverrunRaises(lines: seq<Entry>, t: Instant) returns (rows: seq<Entry>)
    requires Chronological(lines) && Overruns(lines, t)
    ensures Chronological(rows) && multiset(rows) == multiset(lines) && Raises(rows)
  {
    var debitsFirst := !(0 <= Weigh(lines, Earlier(t)) + Weigh(lines, At(t, Debit())) <= MAX_BALANCE_COINS);
    var first := if debitsFirst then Debit() else Credit();
    rows := Reordered(lines, t, first);
    ReorderedIsPermutation(lines, t, first);
    ReorderedIsChronological(lines, t, first);
    ReorderedRaises(lines, t, first);
  }

  // The page

  lemma LinesAreBounded(s: Tables, w: WalletId)
    requires LinesOk(s.ledger, s.wallets)
    ensures Bounded(LinesOf(s.ledger, w))
  {
    LinesAreOfWallet(s.ledger, w);
  }

  /** Some order of the query makes the page raise exactly when, at some instant, the balance before it with
      all its debits is below zero, or with all its credits above the limit. */
  lemma SomeOrderRaisesIff(s: Tables, w: WalletId)
    requires Inv(s) && Timed(s)
    ensures (exists rows :: Answers(rows, s.ledger, w) && Raises(rows)) <==>
            exists t :: Overruns(LinesOf(s.ledger, w), t)
  {
    var lines := LinesOf(s.ledger, w);
    LinesAreBounded(s, w);
    LinesAreChronological(s.ledger, w);
    if rows :| Answers(rows, s.ledger, w) && Raises(rows) {
      RaisingOverruns(rows, lines);
    }
    if t :| Overruns(lines, t) {
      var rows := OverrunRaises(lines, t);
      assert Answers(rows, s.ledger, w) && Raises(rows);
    }
  }

  /** The same in every state of every run from the empty database. */
  lemma RaisesOverRunsIff(s: Tables, steps: seq<Step>, w: WalletId)
    requires Initial(s)
    ensures var ledger := Run(s, steps).ledger;
            (exists rows :: Answers(rows, ledger, w) && Raises(rows)) <==> exists t :: Overruns(LinesOf(ledger, w), t)
  {
    InitialIsOk(s);
    RunKeepsInv(s, steps);
    LedgerIsChronological(s, steps);
    SomeOrderRaisesIff(Run(s, steps), w);
  }
}
