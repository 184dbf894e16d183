/** The sliding window of the callback bridges: at most thirty relayed callbacks a minute. Times are
    readings of one monotonic clock, in seconds; the server handles one request at a time. */
module Limiter {
  const WINDOW: real := 60.0
  const CAPACITY: nat := 30

  predicate NonDecreasing(times: seq<real>) {
    |times| <= 1 || (NonDecreasing(times[..|times| - 1]) && times[|times| - 2] <= times[|times| - 1])
  }

  lemma {:induction false} NotBefore(times: seq<real>, i: nat, j: nat)
    requires NonDecreasing(times) && i <= j < |times|
    ensures times[i] <= times[j]
  {
    if i < j {
      if j == |times| - 1 {
        NotBefore(times[..j], i, j - 1);
      } else {
        NotBefore(times[..|times| - 1], i, j);
      }
    }
  }

  /** How many of the times lie after `t`. */
  function After(times: seq<real>, t: real): nat {
    if times == [] then 0
    else After(times[..|times| - 1], t) + (if times[|times| - 1] > t then 1 else 0)
  }

  /** One decision, made on the whole history of relayed callbacks. */
  function Extended(history: seq<real>, now: real): seq<real> {
    if After(history, now - WINDOW) < CAPACITY then history + [now] else history
  }

  /** What is relayed of some requests. */
  function Relayed(requests: seq<real>): seq<real> {
    if requests == [] then [] else Extended(Relayed(requests[..|requests| - 1]), requests[|requests| - 1])
  }

  ghost predicate DropsTo(history: seq<real>, dropped: nat, arrivals: seq<real>) {
    dropped <= |history| && arrivals == history[dropped..]
  }

  /** The deque is the end of an ordered history; what was dropped from it has left the window. */
  ghost predicate Windowed(history: seq<real>, dropped: nat, arrivals: seq<real>, now: real) {
    && NonDecreasing(history) && (history != [] ==> history[|history| - 1] <= now)
    && DropsTo(history, dropped, arrivals)
    && (dropped > 0 ==> history[dropped - 1] <= now - WINDOW)
  }

  lemma WindowGrows(history: seq<real>, dropped: nat, arrivals: seq<real>, now: real)
    requires Windowed(history, dropped, arrivals, now)
    ensures Windowed(history + [now], dropped, arrivals + [now], now)
  {
    OrderGrows(history, now);
    assert (history + [now])[dropped..] == history[dropped..] + [now];
  }

  lemma DequeCounts(history: seq<real>, dropped: nat, arrivals: seq<real>, now: real)
    requires Windowed(history, dropped, arrivals, now) && (arrivals != [] ==> arrivals[0] > now - WINDOW)
    ensures After(history, now - WINDOW) == |arrivals|
  {
    AfterSuffix(history, dropped, now - WINDOW);
  }

  class CallbackWindow {
    var arrivals: seq<real>  // a deque: popped in front, appended behind
    ghost var history: seq<real>
    ghost var latest: real
    ghost var dropped: nat

    ghost predicate Valid()
      reads this
    {
      Windowed(history, dropped, arrivals, latest) && Spaced(history)
    }

    constructor (now: real)
      ensures Valid() && history == [] && latest == now
    {
      arrivals, history, latest, dropped := [], [], now, 0;
    }

    /** Pops what left the window that ends now. */
    method Prune(now: real)
      requires Valid() && latest == now
      modifies this`arrivals, this`dropped
      ensures Valid()
      ensures arrivals != [] ==> arrivals[0] > now - WINDOW
    {
      while arrivals != [] && arrivals[0] <= now - WINDOW
        invariant Windowed(history, dropped, arrivals, now) && Spaced(history)
        decreases |arrivals|
      {
        assert history[dropped..] == [history[dropped]] + history[dropped + 1..];
        arrivals := arrivals[1..];
        dropped := dropped + 1;
      }
    }

    /** Relays a request exactly when fewer than thirty of all callbacks ever relayed lie in its window. */
    method Admit(now: real) returns (relayed: bool)
      requires Valid() && latest <= now
      modifies this
      ensures Valid() && latest == now
      ensures relayed <==> After(old(history), now - WINDOW) < CAPACITY
      ensures history == Extended(old(history), now)
    {
      latest := now;
      Prune(now);
      DequeCounts(history, dropped, arrivals, now);
      relayed := |arrivals| < CAPACITY;
      if relayed {
        WindowGrows(history, dropped, arrivals, now);
        SpacedGrows(history, now);
        arrivals := arrivals + [now];
        history := history + [now];
      }
    }
  }

  /** If everything before place `k` lies at or before `t` and everything from there on lies after it,
      the number after `t` is the length of that end. */
  lemma {:induction false} AfterSuffix(times: seq<real>, k: nat, t: real)
    requires NonDecreasing(times) && k <= |times|
    requires k > 0 ==> times[k - 1] <= t
    requires k < |times| ==> times[k] > t
    ensures After(times, t) == |times| - k
  {
    if times != [] {
      var last := |times| - 1;
      if k <= last {
        NotBefore(times, k, last);
        AfterSuffix(times[..last], k, t);
      } else {
        AfterSuffix(times[..last], k - 1, t);
      }
    }
  }

  lemma OrderGrows(times: seq<real>, now: real)
    requires NonDecreasing(times) && (times != [] ==> times[|times| - 1] <= now)
    ensures NonDecreasing(times + [now])
  {
    var longer := times + [now];
    if times != [] {
      assert longer[..|longer| - 1] == times;
      assert longer[|longer| - 2] == times[|times| - 1] && longer[|longer| - 1] == now;
    }
  }

  lemma ExtendedIsOrdered(history: seq<real>, now: real)
    requires NonDecreasing(history) && (history != [] ==> history[|history| - 1] <= now)
    ensures var longer := Extended(history, now);
            && NonDecreasing(longer) && |longer| <= |history| + 1
            && (longer != [] ==> longer[|longer| - 1] <= now)
  {
    OrderGrows(history, now);
  }

  lemma {:induction false} RelayedIsOrdered(requests: seq<real>)
    requires NonDecreasing(requests)
    ensures NonDecreasing(Relayed(requests))
    ensures |Relayed(requests)| <= |requests|
    ensures Relayed(requests) != [] ==> Relayed(requests)[|Relayed(requests)| - 1] <= requests[|requests| - 1]
  {
    if requests != [] {
      var last := |requests| - 1;
      var earlier := Relayed(requests[..last]);
      RelayedIsOrdered(requests[..last]);
      if last > 0 {
        assert requests[..last][last - 1] <= requests[last];
      } else {
        assert earlier == [];
      }
      ExtendedIsOrdered(earlier, requests[last]);
    }
  }

  // What one decision is

  /** The places of the callbacks relayed within the last 60 seconds. */
  ghost function Recent(history: seq<real>, now: real): set<nat> {
    set i: nat | i < |history| && history[i] > now - 60.0
  }

  lemma {:induction false} AfterIsSize(times: seq<real>, now: real)
    ensures After(times, now - 60.0) == |Recent(times, now)|
  {
    if times != [] {
      var last := |times| - 1;
      AfterIsSize(times[..last], now);
      var earlier := Recent(times[..last], now);
      assert Recent(times, now) == if times[last] > now - 60.0 then earlier + {last} else earlier;
    } else {
      assert Recent(times, now) == {};
    }
  }

  /** A request is relayed exactly when fewer than 30 were relayed in the 60 seconds before it. */
  lemma RelayedIff(requests: seq<real>, now: real)
    ensures Relayed(requests + [now]) ==
            if |Recent(Relayed(requests), now)| < 30 then Relayed(requests) + [now] else Relayed(requests)
  {
    assert (requests + [now])[..|requests|] == requests;
    AfterIsSize(Relayed(requests), now);
  }

  // What the window guarantees over any run

  predicate Apart(history: seq<real>, i: nat)
    requires i + CAPACITY < |history|
  {
    history[i + CAPACITY] - history[i] >= WINDOW
  }

  /** Any thirty-one successive callbacks span at least a whole window. */
  ghost predicate Spaced(history: seq<real>) {
    forall i: nat | i + CAPACITY < |history| :: Apart(history, i)
  }

  lemma {:induction false} AfterAtLeast(times: seq<real>, k: nat, t: real)
    requires NonDecreasing(times) && k < |times| && times[k] > t
    ensures After(times, t) >= |times| - k
  {
    var last := |times| - 1;
    NotBefore(times, k, last);
    if k < last {
      AfterAtLeast(times[..last], k, t);
    }
  }

  lemma SpacedGrows(history: seq<real>, now: real)
    requires NonDecreasing(history) && Spaced(history) && After(history, now - WINDOW) < CAPACITY
    ensures Spaced(history + [now])
  {
    var longer := history + [now];
    forall i: nat | i + CAPACITY < |longer| ensures Apart(longer, i) {
      if i + CAPACITY < |history| {
        assert Apart(history, i);
      } else if history[i] > now - WINDOW {
        AfterAtLeast(history, i, now - WINDOW);
        assert false;
      }
    }
  }

  lemma {:induction false} RelayedIsSpaced(requests: seq<real>)
    requires NonDecreasing(requests)
    ensures Spaced(Relayed(requests))
  {
    if requests != [] {
      var last := |requests| - 1;
      var now := requests[last];
      var earlier := Relayed(requests[..last]);
      RelayedIsSpaced(requests[..last]);
      RelayedIsOrdered(requests[..last]);
      if After(earlier, now - WINDOW) < CAPACITY {
        SpacedGrows(earlier, now);
      }
    }
  }

  /** An instant lies in the minute from `t`, which is open at its start or else at its end. */
  ghost predicate InWindow(x: real, t: real, closedEnd: bool) {
    if closedEnd then t < x <= t + WINDOW else t <= x < t + WINDOW
  }

  lemma MinuteTooShort(history: seq<real>, i: nat, t: real, closedEnd: bool)
    requires Spaced(history) && i + CAPACITY < |history|
    ensures !(InWindow(history[i], t, closedEnd) && InWindow(history[i + CAPACITY], t, closedEnd))
  {
    assert Apart(history, i);
  }

  /** No half-open minute of any run, open at either end, holds more than thirty relayed callbacks. */
  lemma NoMinuteIsOverfull(requests: seq<real>, from: nat, to: nat, t: real, closedEnd: bool)
    requires NonDecreasing(requests) && from <= to <= |Relayed(requests)|
    requires forall i :: from <= i < to ==> InWindow(Relayed(requests)[i], t, closedEnd)
    ensures to - from <= CAPACITY
  {
    RelayedIsSpaced(requests);
    if to - from > CAPACITY {
      MinuteTooShort(Relayed(requests), from, t, closedEnd);
      assert false;
    }
  }

  function Burst(n: nat): seq<real> { seq(n, _ => 0.0) }

  lemma BurstGrows(n: nat)
    ensures Burst(n + 1) == Burst(n) + [0.0] && Burst(n + 1)[..n] == Burst(n)
  {
  }

  lemma {:induction false} BurstIsOrdered(n: nat)
    ensures NonDecreasing(Burst(n))
    decreases n
  {
    if n > 0 {
      BurstIsOrdered(n - 1);
      BurstGrows(n - 1);
      OrderGrows(Burst(n - 1), 0.0);
    }
  }

  lemma {:induction false} BurstCounts(n: nat, t: real)
    ensures After(Burst(n), t) == if t < 0.0 then n else 0
    decreases n
  {
    if n > 0 {
      BurstCounts(n - 1, t);
      BurstGrows(n - 1);
    }
  }

  lemma {:induction false} BurstIsRelayed(n: nat)
    requires n <= CAPACITY
    ensures Relayed(Burst(n)) == Burst(n)
    decreases n
  {
    if n > 0 {
      BurstIsRelayed(n - 1);
      BurstGrows(n - 1);
      BurstCounts(n - 1, 0.0 - WINDOW);
    }
  }

  /** A minute closed at both ends can hold thirty-one: the callback exactly one window after the first
      of a full window is relayed. */
  lemma ClosedMinuteMayHoldOneMore()
    ensures exists requests ::
      && NonDecreasing(requests) && |Relayed(requests)| == CAPACITY + 1
      && forall i :: 0 <= i <= CAPACITY ==> 0.0 <= Relayed(requests)[i] <= WINDOW
  {
    BurstIsRelayed(CAPACITY);
    BurstIsOrdered(CAPACITY);
    BurstCounts(CAPACITY, 0.0);
    var requests := Burst(CAPACITY) + [WINDOW];
    assert requests[..CAPACITY] == Burst(CAPACITY);
    assert Relayed(requests) == requests;
    OrderGrows(Burst(CAPACITY), WINDOW);
  }
}
