/** Connecting with retries and a doubling, capped wait between them, in 64-bit nanosecond durations. */
module Reconnect {
  import opened Words

  datatype Config = Config(initialBackoff: int, maxBackoff: int, maxRetries: int)

  /** What one attempt meets: whether the context is cancelled before it, whether it connects, and whether the
      context is cancelled after it or while waiting. */
  datatype Attempt = Attempt(cancelledBefore: bool, connects: bool, cancelledAfter: bool, cancelledWaiting: bool)

  datatype Outcome = Connected | Cancelled | Exhausted

  predicate IsDuration(d: int) {
    -TWO_63 <= d < TWO_63
  }

  /** Doubling a 64-bit duration, which wraps around. */
  function Double(d: int): (r: int)
    requires IsDuration(d)
    ensures IsDuration(r) && (2 * d - r) % TWO_64 == 0
  {
    if 2 * d >= TWO_63 then 2 * d - TWO_64 else if 2 * d < -TWO_63 then 2 * d + TWO_64 else 2 * d
  }

  /** The wait after a failure, from the one before it. */
  function NextBackoff(cfg: Config, backoff: int): int
    requires IsDuration(backoff)
  {
    if Double(backoff) > cfg.maxBackoff then cfg.maxBackoff else Double(backoff)
  }

  /** Both are 64-bit durations. */
  predicate Durations(cfg: Config) {
    IsDuration(cfg.initialBackoff) && IsDuration(cfg.maxBackoff)
  }

  predicate Valid(cfg: Config) {
    Durations(cfg) && cfg.initialBackoff > 0 && cfg.maxBackoff > 0
  }

  /** The wait after failure number k, counted from one, as the loop computes it. */
  function Backoff(cfg: Config, k: nat): (b: int)
    requires Durations(cfg) && k >= 1
    ensures IsDuration(b)
  {
    if k == 1 then cfg.initialBackoff else NextBackoff(cfg, Backoff(cfg, k - 1))
  }

  /** d doubled n times, d * 2^n. */
  function Doubled(d: int, n: nat): int {
    if n == 0 then d else 2 * Doubled(d, n - 1)
  }

  /** The intended wait: the first is the initial one, and later ones double up to the maximum. */
  function Intended(cfg: Config, k: nat): int
    requires k >= 1
  {
    if k == 1 then cfg.initialBackoff
    else if Doubled(cfg.initialBackoff, k - 1) > cfg.maxBackoff then cfg.maxBackoff
    else Doubled(cfg.initialBackoff, k - 1)
  }

  /** No doubling of any wait can overflow. */
  predicate NoOverflow(cfg: Config) {
    cfg.initialBackoff < TWO_62 && cfg.maxBackoff < TWO_62
  }

  /** No doubling on the way to the n-th wait overflows: that of the first wait, and that of the longest later one
      but the last. */
  predicate InRange(cfg: Config, n: nat) {
    && (n >= 2 ==> cfg.initialBackoff < TWO_62)
    && (n >= 3 ==> cfg.maxBackoff < TWO_62 || Doubled(cfg.initialBackoff, n - 2) < TWO_62)
  }

  lemma {:induction false} DoubledGrows(d: int, n: nat)
    requires d > 0
    ensures Doubled(d, n) >= Doubled(1, n) > 0
    ensures Doubled(d, n) >= d
  {
    if n > 0 {
      DoubledGrows(d, n - 1);
    }
  }

  lemma InRangeBefore(cfg: Config, n: nat)
    requires Valid(cfg) && n >= 1 && InRange(cfg, n)
    ensures InRange(cfg, n - 1)
    ensures n >= 2 ==> Intended(cfg, n - 1) < TWO_62
  {
    if n >= 3 {
      DoubledGrows(cfg.initialBackoff, n - 3);
    }
  }

  lemma {:induction false} BackoffIsIntended(cfg: Config, k: nat)
    requires Valid(cfg) && k >= 1 && InRange(cfg, k)
    ensures Backoff(cfg, k) == Intended(cfg, k)
    ensures 0 < Backoff(cfg, k) && (k >= 2 ==> Backoff(cfg, k) <= cfg.maxBackoff)
  {
    if k > 1 {
      InRangeBefore(cfg, k);
      BackoffIsIntended(cfg, k - 1);
      DoubledGrows(cfg.initialBackoff, k - 1);
      DoubledGrows(cfg.initialBackoff, k - 2);
    }
  }

  /** The first wait that doubles out of range is negative. */
  lemma {:induction false} WrongOutOfRange(cfg: Config, n: nat)
    requires Valid(cfg) && n >= 1 && !InRange(cfg, n)
    ensures exists k :: 1 <= k <= n && Backoff(cfg, k) != Intended(cfg, k)
  {
    if InRange(cfg, n - 1) {
      DoubledGrows(cfg.initialBackoff, n - 1);
      DoubledGrows(cfg.initialBackoff, n - 2);
      BackoffIsIntended(cfg, n - 1);
      assert Intended(cfg, n - 1) >= TWO_62;
      assert Backoff(cfg, n) == NextBackoff(cfg, Backoff(cfg, n - 1)) < 0;
      assert Intended(cfg, n) > 0;
    } else {
      WrongOutOfRange(cfg, n - 1);
    }
  }

  lemma EightDoublings(n: nat)
    ensures Doubled(1, n + 8) == 256 * Doubled(1, n)
  {
    assert Doubled(1, n + 2) == 4 * Doubled(1, n);
    assert Doubled(1, n + 4) == 4 * Doubled(1, n + 2);
    assert Doubled(1, n + 6) == 4 * Doubled(1, n + 4);
    assert Doubled(1, n + 8) == 4 * Doubled(1, n + 6);
  }

  lemma SixtyTwoDoublings()
    ensures Doubled(1, 62) == TWO_62
  {
    assert Doubled(1, 2) == 4;
    assert Doubled(1, 4) == 16;
    assert Doubled(1, 6) == 64;
    EightDoublings(6);
    EightDoublings(14);
    EightDoublings(22);
    EightDoublings(30);
    EightDoublings(38);
    EightDoublings(46);
    EightDoublings(54);
  }

  /** Some wait goes wrong when a doubling can overflow. */
  lemma OverflowHappens(cfg: Config)
    requires Valid(cfg) && !NoOverflow(cfg)
    ensures exists k :: k >= 1 && Backoff(cfg, k) != Intended(cfg, k)
  {
    SixtyTwoDoublings();
    DoubledGrows(cfg.initialBackoff, 62);
    WrongOutOfRange(cfg, 64);
  }

  /** The first n waits are the intended ones exactly when no doubling on the way to them overflows a duration. */
  lemma IntendedUnlessOverflow(cfg: Config, n: nat)
    requires Valid(cfg)
    ensures (forall k :: 1 <= k <= n ==> Backoff(cfg, k) == Intended(cfg, k)) <==> InRange(cfg, n)
  {
    if InRange(cfg, n) {
      forall k | 1 <= k <= n
        ensures Backoff(cfg, k) == Intended(cfg, k)
      {
        InRangeUpTo(cfg, n, k);
        BackoffIsIntended(cfg, k);
      }
    } else {
      WrongOutOfRange(cfg, n);
    }
  }

  lemma {:induction false} InRangeUpTo(cfg: Config, n: nat, k: nat)
    requires Valid(cfg) && InRange(cfg, n) && k <= n
    ensures InRange(cfg, k)
  {
    if k < n {
      InRangeBefore(cfg, n);
      InRangeUpTo(cfg, n - 1, k);
    }
  }

  /** All waits, however many, are the intended ones exactly when doubling can never overflow a duration. */
  lemma AlwaysIntendedUnlessOverflow(cfg: Config)
    requires Valid(cfg)
    ensures (forall k :: k >= 1 ==> Backoff(cfg, k) == Intended(cfg, k)) <==> NoOverflow(cfg)
  {
    if NoOverflow(cfg) {
      forall k | k >= 1
        ensures Backoff(cfg, k) == Intended(cfg, k)
      {
        BackoffIsIntended(cfg, k);
      }
    } else {
      OverflowHappens(cfg);
    }
  }

  function Sum(waits: seq<int>): int {
    if waits == [] then 0 else Sum(waits[..|waits| - 1]) + waits[|waits| - 1]
  }

  /** Neither connected nor cancelled: the loop goes round again, if it may. */
  predicate Retries(a: Attempt) {
    !a.cancelledBefore && !a.connects && !a.cancelledAfter && !a.cancelledWaiting
  }

  /** How the attempt after `done` failed ones ends the loop, with so many calls and waits in all. */
  predicate Ends(cfg: Config, a: Attempt, done: nat, outcome: Outcome, calls: nat, waits: nat) {
    match outcome
    case Connected => !a.cancelledBefore && a.connects && calls == done + 1 && waits == done
    case Exhausted =>
      if cfg.maxRetries <= 0 then done == calls == waits == 0
      else && done == cfg.maxRetries - 1 && calls == done + 1 && waits == done
           && !a.cancelledBefore && !a.connects && !a.cancelledAfter
    case Cancelled =>
      if a.cancelledBefore then calls == waits == done
      else && !a.connects && calls == done + 1
           && (if a.cancelledAfter then waits == done
               else a.cancelledWaiting && waits == done + 1 && done < cfg.maxRetries - 1)
  }

  /** The sum does not depend on how the list is split. */
  lemma {:induction false} SumAppend(a: seq<int>, b: seq<int>)
    ensures Sum(a + b) == Sum(a) + Sum(b)
    ensures forall x :: Sum([x]) == x
  {
    if b == [] {
      assert a + b == a;
    } else {
      SumAppend(a, b[..|b| - 1]);
      assert (a + b)[..|a + b| - 1] == a + b[..|b| - 1];
    }
  }

  /** Tries to connect, at most maxRetries times.  `waits` lists the waits that were started, `calls` counts the
      attempts to connect, and `done` those that were followed by a whole wait. */
  method WithReconnect(cfg: Config, attempts: nat -> Attempt)
    returns (outcome: Outcome, waits: seq<int>, calls: nat, done: nat)
    requires Durations(cfg)
    ensures forall i :: 0 <= i < done ==> Retries(attempts(i))
    ensures Ends(cfg, attempts(done), done, outcome, calls, |waits|)
    ensures calls <= if cfg.maxRetries < 0 then 0 else cfg.maxRetries
    ensures forall i :: 0 <= i < |waits| ==> waits[i] == Backoff(cfg, i + 1)
    ensures Valid(cfg) && cfg.maxRetries >= 2 && InRange(cfg, cfg.maxRetries - 1) ==>
              Sum(waits) <= cfg.initialBackoff + (cfg.maxRetries - 2) * cfg.maxBackoff
  {
    hide Sum;
    var backoff := cfg.initialBackoff;
    waits, calls, done := [], 0, 0;
    TotalWait(cfg, waits);
    while done < cfg.maxRetries
      invariant calls == done == |waits| && (done == 0 || done <= cfg.maxRetries - 1)
      invariant backoff == Backoff(cfg, done + 1)
      invariant forall i :: 0 <= i < |waits| ==> waits[i] == Backoff(cfg, i + 1)
      invariant forall i :: 0 <= i < done ==> Retries(attempts(i))
      decreases cfg.maxRetries - done
    {
      TotalWait(cfg, waits);
      if attempts(done).cancelledBefore {
        return Cancelled, waits, calls, done;
      }
      calls := calls + 1;
      if attempts(done).connects {
        return Connected, waits, calls, done;
      }
      if attempts(done).cancelledAfter {
        return Cancelled, waits, calls, done;
      }
      if done == cfg.maxRetries - 1 {
        return Exhausted, waits, calls, done;
      }
      waits := waits + [backoff];
      TotalWait(cfg, waits);
      if attempts(done).cancelledWaiting {
        return Cancelled, waits, calls, done;
      }
      backoff := NextBackoff(cfg, backoff);
      done := done + 1;
    }
    return Exhausted, waits, calls, done;
  }

  lemma MoreTimes(a: int, b: int, m: int)
    requires a <= b && m >= 0
    ensures a * m <= b * m
  {
    assert b * m - a * m == (b - a) * m;
  }

  lemma OneMoreWait(sum: int, wait: int, first: int, n: nat, most: int)
    requires sum <= first + n * most && wait <= most
    ensures sum + wait <= first + (n + 1) * most
  {
    assert (n + 1) * most == n * most + most;
  }

  /** The waits never add up to more than the first one and the maximum for each later one. */
  lemma TotalWait(cfg: Config, waits: seq<int>)
    requires Durations(cfg) && forall i :: 0 <= i < |waits| ==> waits[i] == Backoff(cfg, i + 1)
    ensures Valid(cfg) && 2 <= cfg.maxRetries && |waits| <= cfg.maxRetries - 1 && InRange(cfg, cfg.maxRetries - 1) ==>
              Sum(waits) <= cfg.initialBackoff + (cfg.maxRetries - 2) * cfg.maxBackoff
  {
    if Valid(cfg) && 2 <= cfg.maxRetries && |waits| <= cfg.maxRetries - 1 && InRange(cfg, cfg.maxRetries - 1) {
      InRangeUpTo(cfg, cfg.maxRetries - 1, |waits|);
      SumOfWaits(cfg, waits);
      MoreTimes(LaterWaits(waits), cfg.maxRetries - 2, cfg.maxBackoff);
    }
  }

  function LaterWaits(waits: seq<int>): nat {
    if waits == [] then 0 else |waits| - 1
  }

  lemma FirstBackoff(cfg: Config)
    requires Durations(cfg)
    ensures Backoff(cfg, 1) == cfg.initialBackoff
  {
  }

  lemma {:induction false} SumOfWaits(cfg: Config, waits: seq<int>)
    requires Valid(cfg) && InRange(cfg, |waits|)
    requires forall i :: 0 <= i < |waits| ==> waits[i] == Backoff(cfg, i + 1)
    ensures Sum(waits) <= cfg.initialBackoff + LaterWaits(waits) * cfg.maxBackoff
  {
    if waits != [] {
      hide InRange, Intended, Backoff, Valid;
      var n := |waits| - 1;
      assert waits[n] == Backoff(cfg, n + 1);
      InRangeBefore(cfg, n + 1);
      SumOfWaits(cfg, waits[..n]);
      BackoffIsIntended(cfg, n + 1);
      if n == 0 {
        FirstBackoff(cfg);
      } else {
        OneMoreWait(Sum(waits[..n]), waits[n], cfg.initialBackoff, LaterWaits(waits[..n]), cfg.maxBackoff);
      }
    }
  }
}
