/** One event window: a list of entries with expiry times that is appended to, capped, drained by triggers and
    shrunk by a background pruner.  The operations are given meaning on values first; the class below carries
    the list of operations performed on it as ghost state, so that everything proved about lists of operations
    holds of every reachable window. */
module Windows {
  import opened Sequences
  import opened Events

  datatype Entry = Entry(event: Event, expiresAt: int)

  /** One critical section on a window; `now` is the clock reading inside it. */
  datatype Op =
    | Add(event: Event, ttl: int, now: int)
    | Take(fields: seq<string>, trigger: Event, minFirstCount: int, now: int)
    | Prune(now: int)

  /** The oldest entries go when there are more than `cap`; a cap of zero or less is no cap. */
  function Capped(cap: int, s: seq<Entry>): seq<Entry> {
    if 0 < cap < |s| then s[|s| - cap..] else s
  }

  /** The entry stays in the window when op runs.  A take keeps an entry that expires exactly now unless it
      matches; a prune removes it. */
  predicate Survives(op: Op, e: Entry) {
    match op
    case Add(_, _, _) => true
    case Take(fields, trigger, _, now) => !(e.expiresAt < now) && !FieldsMatch(fields, e.event, trigger)
    case Prune(now) => e.expiresAt > now
  }

  /** The entry is handed to the caller when op runs. */
  predicate Matched(op: Op, e: Entry) {
    op.Take? && !(e.expiresAt < op.now) && FieldsMatch(op.fields, e.event, op.trigger)
  }

  /** The entry is discarded as expired when op runs. */
  predicate Expired(op: Op, e: Entry) {
    match op
    case Add(_, _, _) => false
    case Take(_, _, _, now) => e.expiresAt < now
    case Prune(now) => e.expiresAt <= now
  }

  function Surviving(op: Op): Entry -> bool {
    e => Survives(op, e)
  }

  function Matching(op: Op): Entry -> bool {
    e => Matched(op, e)
  }

  function Step(cap: int, s: seq<Entry>, op: Op): seq<Entry> {
    if op.Add? then Capped(cap, s + [Entry(op.event, op.now + op.ttl)])
    else Filter(Surviving(op), s)
  }

  function Result(s: seq<Entry>, op: Op): seq<Entry> {
    Filter(Matching(op), s)
  }

  /** The window after the operations, from the contents s. */
  function AfterFrom(cap: int, s: seq<Entry>, ops: seq<Op>): seq<Entry> {
    if ops == [] then s
    else Step(cap, AfterFrom(cap, s, ops[..|ops| - 1]), ops[|ops| - 1])
  }

  /** The window after the operations, from its construction. */
  function After(cap: int, ops: seq<Op>): seq<Entry> {
    AfterFrom(cap, [], ops)
  }

  /** What the operation at position n hands to its caller. */
  function ResultAt(cap: int, ops: seq<Op>, n: nat): seq<Entry>
    requires n < |ops|
  {
    Result(After(cap, ops[..n]), ops[n])
  }

  /** Everything the takes return, take by take. */
  function TakeResults(cap: int, ops: seq<Op>): seq<seq<Entry>> {
    if ops == [] then []
    else
      var n := |ops| - 1;
      TakeResults(cap, ops[..n]) + if ops[n].Take? then [ResultAt(cap, ops, n)] else []
  }

  lemma AfterSnoc(cap: int, s: seq<Entry>, ops: seq<Op>, op: Op)
    ensures AfterFrom(cap, s, ops + [op]) == Step(cap, AfterFrom(cap, s, ops), op)
  {
    assert (ops + [op])[..|ops|] == ops;
  }

  lemma AfterNothing(cap: int, s: seq<Entry>)
    ensures AfterFrom(cap, s, []) == s
  {
  }

  lemma {:induction false} AfterAppend(cap: int, s: seq<Entry>, a: seq<Op>, b: seq<Op>)
    ensures AfterFrom(cap, s, a + b) == AfterFrom(cap, AfterFrom(cap, s, a), b)
  {
    hide AfterFrom, Step;
    if b == [] {
      assert a + b == a;
      AfterNothing(cap, AfterFrom(cap, s, a));
    } else {
      var init, op := b[..|b| - 1], b[|b| - 1];
      AfterAppend(cap, s, a, init);
      AfterSnoc(cap, s, a + init, op);
      AfterSnoc(cap, AfterFrom(cap, s, a), init, op);
      assert a + b == a + init + [op] && b == init + [op];
    }
  }

  // ---------------------------------------------------------------------------------------------------------
  // Expiry order
  // ---------------------------------------------------------------------------------------------------------

  /** The clock never goes backwards. */
  ghost predicate Monotone(ops: seq<Op>) {
    forall i, j :: 0 <= i < j < |ops| ==> ops[i].now <= ops[j].now
  }

  /** Every add uses the window's one TTL. */
  ghost predicate FixedTtl(ttl: int, ops: seq<Op>) {
    forall op :: op in ops && op.Add? ==> op.ttl == ttl
  }

  ghost predicate Sorted(s: seq<Entry>) {
    forall i, j :: 0 <= i < j < |s| ==> s[i].expiresAt <= s[j].expiresAt
  }

  lemma {:induction false} FilterSorted(p: Entry -> bool, s: seq<Entry>)
    requires Sorted(s)
    ensures Sorted(Filter(p, s))
  {
    if s != [] {
      FilterSorted(p, s[..|s| - 1]);
      var rest := Filter(p, s[..|s| - 1]);
      forall i | 0 <= i < |rest|
        ensures rest[i].expiresAt <= s[|s| - 1].expiresAt
      {
        assert rest[i] in s[..|s| - 1];
      }
    }
  }

  /** With one TTL and a clock that does not go backwards, the entries are always in order of expiry. */
  lemma {:induction false} AfterSorted(cap: int, ttl: int, ops: seq<Op>)
    requires Monotone(ops) && FixedTtl(ttl, ops)
    ensures Sorted(After(cap, ops))
    ensures forall e :: e in After(cap, ops) ==> e.expiresAt <= ops[|ops| - 1].now + ttl
  {
    if ops != [] {
      var n := |ops| - 1;
      AfterSorted(cap, ttl, ops[..n]);
      var s := After(cap, ops[..n]);
      assert forall e :: e in s ==> e.expiresAt <= ops[n].now + ttl;
      if ops[n].Add? {
        assert ops[n].ttl == ttl;
      } else {
        FilterSorted(Surviving(ops[n]), s);
      }
    }
  }

  // ---------------------------------------------------------------------------------------------------------
  // Pruning is invisible
  // ---------------------------------------------------------------------------------------------------------

  function WithoutPrunes(ops: seq<Op>): seq<Op> {
    if ops == [] then []
    else
      var n := |ops| - 1;
      WithoutPrunes(ops[..n]) + if ops[n].Prune? then [] else [ops[n]]
  }

  /** The clock has moved on when a take follows a prune. */
  ghost predicate TakesAfterPrunes(ops: seq<Op>) {
    forall i, j :: 0 <= i < j < |ops| && ops[i].Prune? && ops[j].Take? ==> ops[i].now < ops[j].now
  }

  /** p is u without some of its first entries, all of which expire by `limit`. */
  ghost predicate PrunedBy(limit: int, p: seq<Entry>, u: seq<Entry>) {
    Suffix(p, u) && forall i :: 0 <= i < |u| - |p| ==> u[i].expiresAt <= limit
  }

  lemma SuffixSnoc(a: seq<Entry>, b: seq<Entry>, e: Entry)
    requires Suffix(a, b)
    ensures Suffix(a + [e], b + [e])
  {
    assert b == b[..|b| - |a|] + a;
    assert b + [e] == b[..|b| - |a|] + (a + [e]);
  }

  lemma SnocKeepsPrunedBy(limit: int, p: seq<Entry>, u: seq<Entry>, e: Entry)
    requires PrunedBy(limit, p, u)
    ensures PrunedBy(limit, p + [e], u + [e])
  {
    SuffixSnoc(p, u, e);
    assert forall i :: 0 <= i < |u| ==> (u + [e])[i] == u[i];
  }

  /** In a window sorted by expiry, a prune removes some of the first entries. */
  lemma {:induction false} PruneDropsPrefix(s: seq<Entry>, now: int)
    requires Sorted(s)
    ensures PrunedBy(now, Filter(Surviving(Prune(now)), s), s)
  {
    hide Filter;
    var p := Surviving(Prune(now));
    if s == [] {
      NothingFiltered(Prune(now));
    } else {
      var init, e := s[..|s| - 1], s[|s| - 1];
      assert s == init + [e];
      if e.expiresAt > now {
        hide PrunedBy;
        PruneDropsPrefix(init, now);
        FilterSnoc(p, init, e);
        SnocKeepsPrunedBy(now, Filter(p, init), init, e);
      } else {
        FilterNone(p, s);
      }
    }
  }

  lemma AddKeepsPrunedBy(limit: int, cap: int, p: seq<Entry>, u: seq<Entry>, e: Entry)
    requires PrunedBy(limit, p, u)
    ensures PrunedBy(limit, Capped(cap, p + [e]), Capped(cap, u + [e]))
  {
    SnocKeepsPrunedBy(limit, p, u, e);
    CapKeepsPrunedBy(limit, cap, p + [e], u + [e]);
  }

  lemma CapKeepsPrunedBy(limit: int, cap: int, p: seq<Entry>, u: seq<Entry>)
    requires PrunedBy(limit, p, u)
    ensures PrunedBy(limit, Capped(cap, p), Capped(cap, u))
  {
    CapKeepsSuffix(cap, cap, p, u);
    if 0 < cap < |u| {
      assert forall i :: 0 <= i < cap ==> Capped(cap, u)[i] == u[|u| - cap + i];
    }
  }

  lemma CapKeepsSuffix(low: int, high: int, a: seq<Entry>, b: seq<Entry>)
    requires CapAtLeast(high, low) && Suffix(a, b)
    ensures Suffix(Capped(low, a), Capped(high, b))
  {
    hide Capped;
    CappedEnd(low, a);
    CappedEnd(high, b);
    var c, d := Capped(low, a), Capped(high, b);
    var x := b[..|b| - |a|];
    assert b == x + a;
    forall i | 0 <= i < |c|
      ensures d[|d| - |c| + i] == c[i]
    {
      assert d[|d| - |c| + i] == b[|b| - |c| + i] == a[|a| - |c| + i];
    }
  }

  /** A capped list is the end of the list, as long as the cap allows. */
  lemma CappedEnd(cap: int, s: seq<Entry>)
    ensures |Capped(cap, s)| == if 0 < cap < |s| then cap else |s|
    ensures Capped(cap, s) == s[|s| - |Capped(cap, s)|..]
  {
  }

  /** A take later than `limit` cannot tell the two windows apart, and leaves them equal. */
  lemma TakeClosesGap(cap: int, limit: int, p: seq<Entry>, u: seq<Entry>, op: Op)
    requires PrunedBy(limit, p, u) && op.Take? && limit < op.now
    ensures Step(cap, p, op) == Step(cap, u, op) && Result(p, op) == Result(u, op)
  {
    var x := u[..|u| - |p|];
    assert u == x + p;
    FilterAppend(Surviving(op), x, p);
    FilterAppend(Matching(op), x, p);
    FilterNone(Surviving(op), x);
    FilterNone(Matching(op), x);
  }

  lemma PrunedByTransitive(limit: int, q: seq<Entry>, p: seq<Entry>, u: seq<Entry>)
    requires PrunedBy(limit, q, p) && PrunedBy(limit, p, u)
    ensures PrunedBy(limit, q, u)
  {
    var x, y := u[..|u| - |p|], p[..|p| - |q|];
    assert u == x + y + q;
    assert forall i :: |x| <= i < |x + y| ==> u[i] == y[i - |x|];
  }

  ghost predicate PrunedUntil(limit: int, ops: seq<Op>) {
    forall i :: 0 <= i < |ops| && ops[i].Prune? ==> ops[i].now <= limit
  }

  lemma WithoutPrunesSnoc(ops: seq<Op>, op: Op)
    ensures WithoutPrunes(ops + [op]) == WithoutPrunes(ops) + if op.Prune? then [] else [op]
  {
    assert (ops + [op])[..|ops|] == ops;
  }

  /** One more operation on both windows. */
  lemma SameStep(cap: int, limit: int, init: seq<Op>, op: Op)
    requires PrunedBy(limit, After(cap, init), After(cap, WithoutPrunes(init))) && !op.Prune?
    ensures PrunedBy(limit, After(cap, init + [op]), After(cap, WithoutPrunes(init + [op])))
  {
    hide AfterFrom, WithoutPrunes, PrunedBy;
    var p, u := After(cap, init), After(cap, WithoutPrunes(init));
    AfterSnoc(cap, [], init, op);
    WithoutPrunesSnoc(init, op);
    AfterSnoc(cap, [], WithoutPrunes(init), op);
    if op.Add? {
      AddKeepsPrunedBy(limit, cap, p, u, EntryOf(op));
    } else {
      FilterKeepsPrunedBy(limit, Surviving(op), p, u);
    }
  }

  lemma FilterKeepsPrunedBy(limit: int, f: Entry -> bool, p: seq<Entry>, u: seq<Entry>)
    requires PrunedBy(limit, p, u)
    ensures PrunedBy(limit, Filter(f, p), Filter(f, u))
  {
    var x := u[..|u| - |p|];
    assert u == x + p;
    FilterAppend(f, x, p);
    forall i | 0 <= i < |Filter(f, x)|
      ensures Filter(f, u)[i].expiresAt <= limit
    {
      assert Filter(f, x)[i] in x;
    }
  }

  /** One more prune, on one window only. */
  lemma PruneStep(cap: int, limit: int, init: seq<Op>, op: Op)
    requires op.Prune? && op.now <= limit && Sorted(After(cap, init))
    requires PrunedBy(limit, After(cap, init), After(cap, WithoutPrunes(init)))
    ensures PrunedBy(limit, After(cap, init + [op]), After(cap, WithoutPrunes(init + [op])))
  {
    var p, u := After(cap, init), After(cap, WithoutPrunes(init));
    AfterSnoc(cap, [], init, op);
    WithoutPrunesSnoc(init, op);
    PruneDropsPrefix(p, op.now);
    PrunedByTransitive(limit, Filter(Surviving(op), p), p, u);
    assert WithoutPrunes(init + [op]) == WithoutPrunes(init);
  }

  /** With and without the prunes, the windows differ only in entries that expired by the last prune. */
  lemma {:induction false} PruneSimulation(cap: int, ttl: int, ops: seq<Op>, limit: int)
    requires Monotone(ops) && FixedTtl(ttl, ops) && PrunedUntil(limit, ops)
    ensures PrunedBy(limit, After(cap, ops), After(cap, WithoutPrunes(ops)))
  {
    if ops != [] {
      var n := |ops| - 1;
      PruneSimulation(cap, ttl, ops[..n], limit);
      AfterSorted(cap, ttl, ops[..n]);
      assert ops == ops[..n] + [ops[n]];
      if ops[n].Prune? {
        PruneStep(cap, limit, ops[..n], ops[n]);
      } else {
        SameStep(cap, limit, ops[..n], ops[n]);
      }
    }
  }

  /** Pruning is invisible: however prunes are interleaved with the adds and takes of a window, and whether or
      not the cap drops entries, every take returns what it would have returned without them. */
  lemma {:induction false} PruningIsInvisible(cap: int, ttl: int, ops: seq<Op>)
    requires Monotone(ops) && FixedTtl(ttl, ops) && TakesAfterPrunes(ops)
    ensures TakeResults(cap, ops) == TakeResults(cap, WithoutPrunes(ops))
  {
    if ops != [] {
      var n := |ops| - 1;
      var init, op := ops[..n], ops[n];
      var rest := WithoutPrunes(init);
      assert ops == init + [op];
      PruningIsInvisible(cap, ttl, init);
      WithoutPrunesSnoc(init, op);
      if op.Prune? {
        assert WithoutPrunes(ops) == rest;
      } else {
        assert (rest + [op])[..|rest|] == rest;
        if op.Take? {
          PruneSimulation(cap, ttl, init, op.now - 1);
          TakeClosesGap(cap, op.now - 1, After(cap, init), After(cap, rest), op);
        }
      }
    }
  }

  // ---------------------------------------------------------------------------------------------------------
  // Exactly when pruning shows
  // ---------------------------------------------------------------------------------------------------------

  lemma {:induction false} WithoutPrunesAppend(a: seq<Op>, b: seq<Op>)
    ensures WithoutPrunes(a + b) == WithoutPrunes(a) + WithoutPrunes(b)
  {
    hide WithoutPrunes;
    if b == [] {
      assert a + b == a;
      NoTakes(0);
    } else {
      var init, op := b[..|b| - 1], b[|b| - 1];
      WithoutPrunesAppend(a, init);
      WithoutPrunesSnoc(a + init, op);
      WithoutPrunesSnoc(init, op);
      assert a + b == a + init + [op] && b == init + [op];
    }
  }

  lemma {:induction false} NothingToLeaveOut(ops: seq<Op>)
    requires forall op :: op in ops ==> !op.Prune?
    ensures WithoutPrunes(ops) == ops
  {
    if ops != [] {
      NothingToLeaveOut(ops[..|ops| - 1]);
    }
  }

  /** What a window that starts empty holds after the operations is the last part of what any other one holds, and
      the part before it was there at the start. */
  lemma {:induction false} OldAndNew(cap: int, s: seq<Entry>, ops: seq<Op>)
    ensures Suffix(AfterFrom(cap, [], ops), AfterFrom(cap, s, ops))
    ensures forall e :: e in OldPart(cap, s, ops) ==> e in s
  {
    if ops != [] {
      var n := |ops| - 1;
      var old', new' := AfterFrom(cap, s, ops[..n]), AfterFrom(cap, [], ops[..n]);
      OldAndNew(cap, s, ops[..n]);
      StepKeepsSuffix(cap, cap, new', old', ops[n]);
      OldPartShrinks(cap, new', old', ops[n]);
    }
  }

  /** The entries of the window that are older than the operations. */
  function OldPart(cap: int, s: seq<Entry>, ops: seq<Op>): seq<Entry> {
    Ahead(AfterFrom(cap, s, ops), AfterFrom(cap, [], ops))
  }

  /** What is in `all` before its last part. */
  function Ahead(all: seq<Entry>, part: seq<Entry>): seq<Entry> {
    if |part| <= |all| then all[..|all| - |part|] else []
  }

  lemma OldPartShrinks(cap: int, a: seq<Entry>, b: seq<Entry>, op: Op)
    requires Suffix(a, b) && Suffix(Step(cap, a, op), Step(cap, b, op))
    ensures forall e :: e in Ahead(Step(cap, b, op), Step(cap, a, op)) ==> e in Ahead(b, a)
  {
    var x := b[..|b| - |a|];
    assert b == x + a;
    if op.Add? {
      var e := EntryOf(op);
      assert b + [e] == x + (a + [e]);
    } else {
      FilterAppend(Surviving(op), x, a);
    }
  }

  /** The entries that the take at position n would find in the window never pruned and that were already there at
      position m. */
  function UnprunedSince(cap: int, ops: seq<Op>, m: nat, n: nat): seq<Entry>
    requires m < n < |ops|
  {
    OldPart(cap, After(cap, WithoutPrunes(ops[..m])), WithoutPrunes(ops[m + 1..n]))
  }

  /** The prune at position m and the take at position n share an instant, and something that the take would match
      was in the window before the prune and expires at that instant. */
  ghost predicate PruneShows(cap: int, ops: seq<Op>, m: nat, n: nat)
    requires m < n < |ops|
  {
    && ops[m].Prune? && ops[n].Take? && ops[m].now == ops[n].now
    && exists e :: e in UnprunedSince(cap, ops, m, n) && e.expiresAt == ops[n].now
                   && FieldsMatch(ops[n].fields, e.event, ops[n].trigger)
  }

  /** The operations around a prune at position m. */
  lemma AroundPrune(cap: int, ops: seq<Op>, m: nat, n: nat)
    requires m < n < |ops| && ops[m].Prune?
    ensures var tail := ops[m + 1..n];
            && After(cap, ops[..n]) == AfterFrom(cap, After(cap, ops[..m + 1]), tail)
            && After(cap, WithoutPrunes(ops[..n]))
               == AfterFrom(cap, After(cap, WithoutPrunes(ops[..m])), WithoutPrunes(tail))
            && (forall e :: e in After(cap, ops[..m + 1]) ==> e.expiresAt > ops[m].now)
  {
    var tail := ops[m + 1..n];
    assert ops[..n] == ops[..m + 1] + tail;
    AfterAppend(cap, [], ops[..m + 1], tail);
    assert ops[..m + 1] == ops[..m] + [ops[m]];
    AfterSnoc(cap, [], ops[..m], ops[m]);
    WithoutPrunesSnoc(ops[..m], ops[m]);
    WithoutPrunesAppend(ops[..m + 1], tail);
    AfterAppend(cap, [], WithoutPrunes(ops[..m]), WithoutPrunes(tail));
    assert WithoutPrunes(ops[..m + 1]) == WithoutPrunes(ops[..m]);
  }

  /** A take differs from the one in the run without prunes exactly when it matches something that was pruned. */
  lemma TakeSeesGap(p: seq<Entry>, u: seq<Entry>, take: Op)
    requires Suffix(p, u)
    ensures Result(p, take) == Result(u, take) <==> !exists e :: e in u[..|u| - |p|] && Matched(take, e)
  {
    var x := u[..|u| - |p|];
    assert u == x + p;
    FilterAppend(Matching(take), x, p);
    if e :| e in x && Matched(take, e) {
      FilterKeeps(Matching(take), x, e);
    } else {
      FilterNone(Matching(take), x);
    }
  }

  /** What shows is missing from the pruned window. */
  lemma ShownIsPruned(cap: int, ttl: int, ops: seq<Op>, m: nat, n: nat, e: Entry)
    requires Monotone(ops) && FixedTtl(ttl, ops) && m < n < |ops|
    requires ops[m].Prune? && ops[m].now == ops[n].now
    requires e in UnprunedSince(cap, ops, m, n) && e.expiresAt == ops[n].now
    requires Suffix(After(cap, ops[..n]), After(cap, WithoutPrunes(ops[..n])))
    ensures var p, u := After(cap, ops[..n]), After(cap, WithoutPrunes(ops[..n])); e in u[..|u| - |p|]
  {
    hide AfterFrom, WithoutPrunes;
    var tail := ops[m + 1..n];
    var p, u := After(cap, ops[..n]), After(cap, WithoutPrunes(ops[..n]));
    var mine, theirs := After(cap, tail), After(cap, WithoutPrunes(tail));
    AroundPrune(cap, ops, m, n);
    OldAndNew(cap, After(cap, ops[..m + 1]), tail);
    OldAndNew(cap, After(cap, WithoutPrunes(ops[..m])), WithoutPrunes(tail));
    PruneSimulation(cap, ttl, tail, ops[n].now);
    forall k | |u| - |p| <= k < |u| - |theirs|
      ensures u[k].expiresAt > ops[n].now
    {
      assert u[k] == p[k - (|u| - |p|)];
      assert u[k] in Ahead(p, mine);
    }
    var k :| 0 <= k < |u| - |theirs| && u[k] == e;
    assert u[k] in u[..|u| - |p|];
  }

  lemma LastPrune(ops: seq<Op>, n: nat, now: int) returns (m: nat)
    requires n <= |ops| && exists k :: 0 <= k < n && ops[k].Prune? && ops[k].now == now
    ensures m < n && ops[m].Prune? && ops[m].now == now
    ensures forall k :: m < k < n && ops[k].Prune? ==> ops[k].now != now
  {
    m :| 0 <= m < n && ops[m].Prune? && ops[m].now == now;
    while exists k :: m < k < n && ops[k].Prune? && ops[k].now == now
      invariant m < n && ops[m].Prune? && ops[m].now == now
      decreases n - m
    {
      var k :| m < k < n && ops[k].Prune? && ops[k].now == now;
      m := k;
    }
  }

  /** What a take misses shows at the last prune of its instant. */
  lemma MissedShows(cap: int, ttl: int, ops: seq<Op>, n: nat, e: Entry)
    requires Monotone(ops) && FixedTtl(ttl, ops) && n < |ops| && ops[n].Take?
    requires PrunedBy(ops[n].now, After(cap, ops[..n]), After(cap, WithoutPrunes(ops[..n])))
    requires var p, u := After(cap, ops[..n]), After(cap, WithoutPrunes(ops[..n])); e in u[..|u| - |p|]
    requires Matched(ops[n], e)
    ensures exists m :: 0 <= m < n && PruneShows(cap, ops, m, n)
  {
    hide AfterFrom, WithoutPrunes;
    var now := ops[n].now;
    var p, u := After(cap, ops[..n]), After(cap, WithoutPrunes(ops[..n]));
    if !exists k :: 0 <= k < n && ops[k].Prune? && ops[k].now == now {
      PruneSimulation(cap, ttl, ops[..n], now - 1);
      assert false;
    }
    var m := LastPrune(ops, n, now);
    var tail := ops[m + 1..n];
    NothingToLeaveOut(tail);
    AroundPrune(cap, ops, m, n);
    OldAndNew(cap, After(cap, ops[..m + 1]), tail);
    var k :| 0 <= k < |u| - |p| && u[k] == e;
    assert UnprunedSince(cap, ops, m, n)[k] == e;
    assert PruneShows(cap, ops, m, n);
  }

  /** One take of a run, with and without the prunes before it. */
  lemma TakeUnaffected(cap: int, ttl: int, ops: seq<Op>, n: nat)
    requires Monotone(ops) && FixedTtl(ttl, ops) && n < |ops| && ops[n].Take?
    ensures Result(After(cap, ops[..n]), ops[n]) == Result(After(cap, WithoutPrunes(ops[..n])), ops[n])
            <==> !exists m :: 0 <= m < n && PruneShows(cap, ops, m, n)
  {
    hide AfterFrom, WithoutPrunes;
    var p, u := After(cap, ops[..n]), After(cap, WithoutPrunes(ops[..n]));
    PruneSimulation(cap, ttl, ops[..n], ops[n].now);
    TakeSeesGap(p, u, ops[n]);
    if m :| 0 <= m < n && PruneShows(cap, ops, m, n) {
      var e :| e in UnprunedSince(cap, ops, m, n) && e.expiresAt == ops[n].now
               && FieldsMatch(ops[n].fields, e.event, ops[n].trigger);
      ShownIsPruned(cap, ttl, ops, m, n, e);
      assert Matched(ops[n], e);
    } else if e :| e in u[..|u| - |p|] && Matched(ops[n], e) {
      MissedShows(cap, ttl, ops, n, e);
    }
  }

  /** The exact condition, for whole runs and any cap: the takes of a run return what they would have returned
      without the prunes if and only if no prune shows at a take of the same instant. */
  lemma {:induction false} PruningIsInvisibleExactly(cap: int, ttl: int, ops: seq<Op>)
    requires Monotone(ops) && FixedTtl(ttl, ops)
    ensures TakeResults(cap, ops) == TakeResults(cap, WithoutPrunes(ops))
            <==> !exists m, n :: 0 <= m < n < |ops| && PruneShows(cap, ops, m, n)
  {
    hide AfterFrom, WithoutPrunes, PruneShows, TakeResults, Result;
    if ops == [] {
      NoTakes(cap);
    } else {
      var n := |ops| - 1;
      var init, op := ops[..n], ops[n];
      assert ops == init + [op];
      PruningIsInvisibleExactly(cap, ttl, init);
      ShowsInPrefix(cap, ops, n);
      TakeResultsSnoc(cap, init, op);
      WithoutPrunesSnoc(init, op);
      TakeResultsSnoc(cap, WithoutPrunes(init), op);
      if op.Take? {
        TakeUnaffected(cap, ttl, ops, n);
        SameLast(TakeResults(cap, init), TakeResults(cap, WithoutPrunes(init)), Result(After(cap, init), op),
                 Result(After(cap, WithoutPrunes(init)), op));
      } else {
        assert op.Prune? ==> WithoutPrunes(ops) == WithoutPrunes(init);
        assert TakeResults(cap, ops) == TakeResults(cap, init);
        assert TakeResults(cap, WithoutPrunes(ops)) == TakeResults(cap, WithoutPrunes(init));
      }
    }
  }

  lemma SameLast<T>(a: seq<T>, b: seq<T>, x: T, y: T)
    ensures a + [x] == b + [y] <==> a == b && x == y
  {
    assert (a + [x])[..|a + [x]| - 1] == a && (b + [y])[..|b + [y]| - 1] == b;
  }

  lemma NoTakes(cap: int)
    ensures WithoutPrunes([]) == [] && TakeResults(cap, []) == []
  {
  }

  /** What shows in a run shows in its part without the last operation, or at the last operation, a take. */
  lemma ShowsInPrefix(cap: int, ops: seq<Op>, k: nat)
    requires k + 1 == |ops|
    ensures (exists m, n :: 0 <= m < n < |ops| && PruneShows(cap, ops, m, n))
            <==> || (exists m, n :: 0 <= m < n < k && PruneShows(cap, ops[..k], m, n))
                 || (exists m :: 0 <= m < k && PruneShows(cap, ops, m, k))
    ensures (exists m :: 0 <= m < k && PruneShows(cap, ops, m, k)) ==> ops[k].Take?
  {
    hide UnprunedSince;
    forall m, n | 0 <= m < n < k
      ensures PruneShows(cap, ops[..k], m, n) == PruneShows(cap, ops, m, n)
    {
      SamePrefix(cap, ops, k, m, n);
    }
  }

  lemma SamePrefix(cap: int, ops: seq<Op>, k: nat, m: nat, n: nat)
    requires m < n < k <= |ops|
    ensures UnprunedSince(cap, ops[..k], m, n) == UnprunedSince(cap, ops, m, n)
  {
    assert ops[..k][..m] == ops[..m] && ops[..k][m + 1..n] == ops[m + 1..n];
  }

  lemma TakeResultsSnoc(cap: int, ops: seq<Op>, op: Op)
    ensures TakeResults(cap, ops + [op])
            == TakeResults(cap, ops) + if op.Take? then [Result(After(cap, ops), op)] else []
  {
    assert (ops + [op])[..|ops|] == ops;
  }

  /** The clock really has to move on.  A take that follows a prune returns what it would have returned
      without the prune exactly when it is later, or when no entry that matches it expires at that instant. */
  lemma PruneVisibleExactlyAtExpiry(s: seq<Entry>, prune: Op, take: Op)
    requires prune.Prune? && take.Take? && prune.now <= take.now
    ensures Result(Step(0, s, prune), take) == Result(s, take)
            <==> prune.now < take.now ||
                 !exists e :: e in s && e.expiresAt == take.now && FieldsMatch(take.fields, e.event, take.trigger)
  {
    if e :| e in s && e.expiresAt == take.now && FieldsMatch(take.fields, e.event, take.trigger) {
      FilterKeeps(Matching(take), s, e);
      assert e in Result(s, take);
      if prune.now == take.now {
        assert e !in Result(Step(0, s, prune), take);
      } else {
        MatchesSurvive(0, s, prune, take);
      }
    } else {
      MatchesSurvive(0, s, prune, take);
    }
  }

  /** An event stored at zero, a prune and a take both at the instant it expires. */
  function PruneAtExpiry(e: Event, ttl: int): seq<Op> {
    [Add(e, ttl, 0), Prune(ttl), Take([], e, 1, ttl)]
  }

  /** A run in which pruning shows: the take finds nothing, and would have found the event. */
  lemma PruningShows(e: Event, ttl: int)
    requires ttl >= 0
    ensures Monotone(PruneAtExpiry(e, ttl)) && FixedTtl(ttl, PruneAtExpiry(e, ttl))
    ensures TakeResults(0, PruneAtExpiry(e, ttl)) != TakeResults(0, WithoutPrunes(PruneAtExpiry(e, ttl)))
  {
    hide AfterFrom, After, WithoutPrunes, OldPart, TakeResults;
    var ops := PruneAtExpiry(e, ttl);
    var entry := EntryOf(ops[0]);
    assert ops[..1] == [ops[0]] && ops[2..2] == [];
    OnlyAdd(ops[0]);
    assert UnprunedSince(0, ops, 1, 2) == [entry];
    assert entry in UnprunedSince(0, ops, 1, 2);
    assert PruneShows(0, ops, 1, 2);
    PruningIsInvisibleExactly(0, ttl, ops);
  }

  lemma OnlyAdd(add: Op)
    requires add.Add?
    ensures WithoutPrunes([]) == [] && WithoutPrunes([add]) == [add]
    ensures After(0, [add]) == [EntryOf(add)] && OldPart(0, [EntryOf(add)], []) == [EntryOf(add)]
  {
    WithoutPrunesSnoc([], add);
    AfterSnoc(0, [], [], add);
    assert [] + [add] == [add];
  }

  /** An operation that lets everything survive that a take would match does not affect the take. */
  lemma {:induction false} MatchesSurvive(cap: int, s: seq<Entry>, op: Op, take: Op)
    requires !op.Add? && forall e :: e in s && Matched(take, e) ==> Survives(op, e)
    ensures Result(Step(cap, s, op), take) == Result(s, take)
  {
    if s != [] {
      var n := |s| - 1;
      MatchesSurvive(cap, s[..n], op, take);
      FilterAppend(Matching(take), Step(cap, s[..n], op), [s[n]]);
    }
  }

  // ---------------------------------------------------------------------------------------------------------
  // Raising the cap
  // ---------------------------------------------------------------------------------------------------------

  /** `high` lets a window grow at least as far as `low` does. */
  predicate CapAtLeast(high: int, low: int) {
    high <= 0 || 0 < low <= high
  }

  /** On the same operations, the window under the smaller cap is a suffix of the window under the larger one,
      and so is everything each take returns. */
  lemma {:induction false} RaisingTheCap(low: int, high: int, s: seq<Entry>, t: seq<Entry>, ops: seq<Op>)
    requires CapAtLeast(high, low) && Suffix(s, t)
    ensures Suffix(AfterFrom(low, s, ops), AfterFrom(high, t, ops))
    ensures forall op :: Suffix(Result(AfterFrom(low, s, ops), op), Result(AfterFrom(high, t, ops), op))
  {
    if ops != [] {
      var n := |ops| - 1;
      RaisingTheCap(low, high, s, t, ops[..n]);
      StepKeepsSuffix(low, high, AfterFrom(low, s, ops[..n]), AfterFrom(high, t, ops[..n]), ops[n]);
    }
    forall op
      ensures Suffix(Result(AfterFrom(low, s, ops), op), Result(AfterFrom(high, t, ops), op))
    {
      FilterSuffix(Matching(op), AfterFrom(low, s, ops), AfterFrom(high, t, ops));
    }
  }

  lemma StepKeepsSuffix(low: int, high: int, a: seq<Entry>, b: seq<Entry>, op: Op)
    requires CapAtLeast(high, low) && Suffix(a, b)
    ensures Suffix(Step(low, a, op), Step(high, b, op))
  {
    if op.Add? {
      hide Suffix, Capped;
      SuffixSnoc(a, b, EntryOf(op));
      CapKeepsSuffix(low, high, a + [EntryOf(op)], b + [EntryOf(op)]);
    } else {
      FilterSuffix(Surviving(op), a, b);
    }
  }

  /** A cap that an uncapped window never exceeds changes nothing. */
  lemma {:induction false} CapNeverReached(cap: int, ops: seq<Op>)
    requires cap <= 0 || forall n :: 0 <= n <= |ops| ==> |After(0, ops[..n])| <= cap
    ensures After(cap, ops) == After(0, ops)
  {
    if ops != [] {
      var n := |ops| - 1;
      forall m | 0 <= m <= n
        ensures ops[..n][..m] == ops[..m]
      {
      }
      CapNeverReached(cap, ops[..n]);
      assert ops[..n + 1] == ops;
    }
  }

  // ---------------------------------------------------------------------------------------------------------
  // The window refines a scan of its whole history
  // ---------------------------------------------------------------------------------------------------------

  /** The entries added at positions below k that satisfy p, in order of arrival. */
  function EntriesWhere(ops: seq<Op>, k: nat, p: nat -> bool): seq<Entry>
    requires k <= |ops|
  {
    if k == 0 then []
    else
      var rest := EntriesWhere(ops, k - 1, p);
      if ops[k - 1].Add? && p(k - 1) then rest + [EntryOf(ops[k - 1])] else rest
  }

  function EntryOf(op: Op): Entry
    requires op.Add?
  {
    Entry(op.event, op.now + op.ttl)
  }

  /** The event added at position i is still good for the take at position n: it has not expired, it agrees with
      the trigger, and no take in between, by whatever correlation, agreed with it. */
  ghost predicate Available(ops: seq<Op>, i: nat, n: nat)
    requires i < n < |ops| && ops[n].Take?
  {
    ops[i].Add?
    && ops[n].now <= ops[i].now + ops[i].ttl
    && FieldsMatch(ops[n].fields, ops[i].event, ops[n].trigger)
    && forall k :: i < k < n && ops[k].Take? ==> !FieldsMatch(ops[k].fields, ops[i].event, ops[k].trigger)
  }

  /** The events available to the take at position n, in order of arrival, found by scanning everything that was
      ever added to the window. */
  ghost function HistoryScan(ops: seq<Op>, n: nat): seq<Entry>
    requires n < |ops| && ops[n].Take?
  {
    EntriesWhere(ops, n, AvailableAt(ops, n))
  }

  ghost function AvailableAt(ops: seq<Op>, n: nat): nat -> bool
    requires n < |ops| && ops[n].Take?
  {
    (i: nat) => i < n && Available(ops, i, n)
  }

  lemma {:induction false} EntriesWhereCongruent(ops: seq<Op>, k: nat, p: nat -> bool, q: nat -> bool)
    requires k <= |ops| && forall i :: 0 <= i < k && ops[i].Add? ==> p(i) == q(i)
    ensures EntriesWhere(ops, k, p) == EntriesWhere(ops, k, q)
  {
    if k != 0 {
      EntriesWhereCongruent(ops, k - 1, p, q);
    }
  }

  lemma {:induction false} FilterEntriesWhere(ops: seq<Op>, k: nat, p: nat -> bool, q: nat -> bool, f: Entry -> bool)
    requires k <= |ops|
    requires forall i :: 0 <= i < k && ops[i].Add? ==> q(i) == (p(i) && f(EntryOf(ops[i])))
    ensures Filter(f, EntriesWhere(ops, k, p)) == EntriesWhere(ops, k, q)
  {
    if k != 0 {
      FilterEntriesWhere(ops, k - 1, p, q, f);
    }
  }

  /** The entry added at position i is still in the uncapped window after n operations. */
  ghost predicate StillThere(ops: seq<Op>, i: nat, n: nat)
    requires i < n <= |ops|
  {
    ops[i].Add? && forall k :: i < k < n ==> Survives(ops[k], EntryOf(ops[i]))
  }

  ghost function StillThereAt(ops: seq<Op>, n: nat): nat -> bool
    requires n <= |ops|
  {
    (i: nat) => i < n && StillThere(ops, i, n)
  }

  /** The uncapped window holds exactly the entries that every later operation let survive. */
  lemma {:induction false} ContentsFromHistory(ops: seq<Op>, n: nat)
    requires n <= |ops|
    ensures After(0, ops[..n]) == EntriesWhere(ops, n, StillThereAt(ops, n))
  {
    if n != 0 {
      var m := n - 1;
      assert ops[..n][..m] == ops[..m];
      ContentsFromHistory(ops, m);
      if ops[m].Add? {
        EntriesWhereCongruent(ops, m, StillThereAt(ops, m), StillThereAt(ops, n));
      } else {
        FilterEntriesWhere(ops, m, StillThereAt(ops, m), StillThereAt(ops, n), Surviving(ops[m]));
      }
    }
  }

  /** The window refines the scan: as long as the cap is never exceeded, a take returns exactly the earlier
      events that are unexpired, agree with its trigger and were matched by no earlier take, in the order they
      arrived, whatever was pruned meanwhile. */
  lemma TakeIsHistoryScan(cap: int, ops: seq<Op>, n: nat)
    requires Monotone(ops) && TakesAfterPrunes(ops)
    requires n < |ops| && ops[n].Take?
    requires cap <= 0 || forall m :: 0 <= m <= n ==> |After(0, ops[..m])| <= cap
    ensures ResultAt(cap, ops, n) == HistoryScan(ops, n)
  {
    forall m | 0 <= m <= n
      ensures ops[..n][..m] == ops[..m]
    {
    }
    CapNeverReached(cap, ops[..n]);
    ContentsFromHistory(ops, n);
    forall i | 0 <= i < n && ops[i].Add?
      ensures Available(ops, i, n) <==> StillThere(ops, i, n) && Matched(ops[n], EntryOf(ops[i]))
    {
    }
    FilterEntriesWhere(ops, n, StillThereAt(ops, n), AvailableAt(ops, n), Matching(ops[n]));
  }

  // ---------------------------------------------------------------------------------------------------------
  // Firing
  // ---------------------------------------------------------------------------------------------------------

  /** How many first events a trigger needs: at least one, whatever is configured. */
  function Need(minFirstCount: int): (n: nat)
    ensures n >= 1 && n >= minFirstCount && (n == 1 || n == minFirstCount)
  {
    if minFirstCount <= 0 then 1 else minFirstCount
  }

  predicate FiresAt(cap: int, ops: seq<Op>, n: nat)
    requires n < |ops|
  {
    ops[n].Take? && |ResultAt(cap, ops, n)| >= Need(ops[n].minFirstCount)
  }

  /** The event added at position i is unexpired at the trigger at position n, has its key, and arrived since the
      previous trigger with that key. */
  ghost predicate SinceLastTrigger(ops: seq<Op>, fields: seq<string>, i: nat, n: nat)
    requires i < n < |ops| && ops[n].Take?
  {
    ops[i].Add?
    && ops[n].now <= ops[i].now + ops[i].ttl
    && FieldsMatch(fields, ops[i].event, ops[n].trigger)
    && forall k :: i < k < n && ops[k].Take? ==> !FieldsMatch(fields, ops[k].trigger, ops[n].trigger)
  }

  ghost function SinceLastTriggerAt(ops: seq<Op>, fields: seq<string>, n: nat): nat -> bool
    requires n < |ops| && ops[n].Take?
  {
    (i: nat) => i < n && SinceLastTrigger(ops, fields, i, n)
  }

  /** When all takes compare the same fields, a trigger fires exactly when enough unexpired events with its key
      arrived since the previous trigger with that key. */
  lemma {:induction false} FiresOnCountSinceLastTrigger(cap: int, ops: seq<Op>, fields: seq<string>, n: nat)
    requires Monotone(ops) && TakesAfterPrunes(ops)
    requires n < |ops| && ops[n].Take?
    requires forall k :: 0 <= k <= n && ops[k].Take? ==> ops[k].fields == fields
    requires cap <= 0 || forall m :: 0 <= m <= n ==> |After(0, ops[..m])| <= cap
    ensures FiresAt(cap, ops, n)
            <==> |EntriesWhere(ops, n, SinceLastTriggerAt(ops, fields, n))| >= Need(ops[n].minFirstCount)
  {
    TakeIsHistoryScan(cap, ops, n);
    forall i | 0 <= i < n && ops[i].Add?
      ensures AvailableAt(ops, n)(i) == SinceLastTriggerAt(ops, fields, n)(i)
    {
    }
    EntriesWhereCongruent(ops, n, AvailableAt(ops, n), SinceLastTriggerAt(ops, fields, n));
  }

  // ---------------------------------------------------------------------------------------------------------
  // Conservation
  // ---------------------------------------------------------------------------------------------------------

  function Expiring(op: Op): Entry -> bool {
    e => Expired(op, e)
  }

  /** The entries ever added. */
  function Added(ops: seq<Op>): multiset<Entry> {
    if ops == [] then multiset{}
    else
      var n := |ops| - 1;
      Added(ops[..n]) + AddedBy(ops[n])
  }

  /** The entries ever handed to a caller. */
  function Consumed(cap: int, ops: seq<Op>): multiset<Entry> {
    if ops == [] then multiset{}
    else
      var n := |ops| - 1;
      Consumed(cap, ops[..n]) + multiset(ResultAt(cap, ops, n))
  }

  /** The entries ever discarded as expired, by a take or by a prune. */
  function Discarded(cap: int, ops: seq<Op>): multiset<Entry> {
    if ops == [] then multiset{}
    else
      var n := |ops| - 1;
      Discarded(cap, ops[..n]) + multiset(Filter(Expiring(ops[n]), After(cap, ops[..n])))
  }

  /** The entries that one add pushes out of the window s. */
  function PushedOut(cap: int, s: seq<Entry>, op: Op): seq<Entry> {
    if op.Add? && 0 < cap <= |s| then (s + [EntryOf(op)])[..|s| + 1 - cap] else []
  }

  /** The entries ever dropped by the cap. */
  function Dropped(cap: int, ops: seq<Op>): multiset<Entry> {
    if ops == [] then multiset{}
    else
      var n := |ops| - 1;
      Dropped(cap, ops[..n]) + multiset(PushedOut(cap, After(cap, ops[..n]), ops[n]))
  }

  lemma FilterLast(p: Entry -> bool, s: seq<Entry>)
    requires s != []
    ensures multiset(Filter(p, s))
            == multiset(Filter(p, s[..|s| - 1])) + if p(s[|s| - 1]) then multiset{s[|s| - 1]} else multiset{}
  {
  }

  /** A take or a prune splits the window into what stays, what is handed out and what is discarded. */
  lemma {:induction false} StepPartitions(s: seq<Entry>, op: Op)
    requires !op.Add?
    ensures multiset(s)
            == multiset(Filter(Surviving(op), s)) + multiset(Result(s, op)) + multiset(Filter(Expiring(op), s))
  {
    hide Filter;
    if s == [] {
      FilterAll(Surviving(op), s);
      FilterAll(Matching(op), s);
      FilterAll(Expiring(op), s);
    } else {
      var init, e := s[..|s| - 1], s[|s| - 1];
      StepPartitions(init, op);
      assert s == init + [e];
      assert multiset(s) == multiset(init) + multiset{e};
      FilterLast(Surviving(op), s);
      FilterLast(Matching(op), s);
      FilterLast(Expiring(op), s);
    }
  }

  function AddedBy(op: Op): multiset<Entry> {
    if op.Add? then multiset{EntryOf(op)} else multiset{}
  }

  /** What one operation adds and finds is what it leaves, hands out, discards and drops. */
  lemma StepConserves(cap: int, s: seq<Entry>, op: Op)
    ensures multiset(s) + AddedBy(op)
            == multiset(Step(cap, s, op)) + multiset(Result(s, op)) + multiset(Filter(Expiring(op), s))
               + multiset(PushedOut(cap, s, op))
  {
    if op.Add? {
      FilterNone(Matching(op), s);
      FilterNone(Expiring(op), s);
      assert s + [EntryOf(op)] == PushedOut(cap, s, op) + Step(cap, s, op);
      assert multiset(s + [EntryOf(op)]) == multiset(PushedOut(cap, s, op)) + multiset(Step(cap, s, op));
    } else {
      StepPartitions(s, op);
    }
  }

  /** Conservation: every entry ever added is still in the window, or was handed out once, or was discarded as
      expired, or was dropped by the cap. */
  lemma {:induction false} Conservation(cap: int, ops: seq<Op>)
    ensures Added(ops)
            == multiset(After(cap, ops)) + Consumed(cap, ops) + Discarded(cap, ops) + Dropped(cap, ops)
  {
    if ops != [] {
      var n := |ops| - 1;
      var s, op := After(cap, ops[..n]), ops[n];
      Conservation(cap, ops[..n]);
      StepConserves(cap, s, op);
      Regroup(multiset(s), AddedBy(op), Consumed(cap, ops[..n]), Discarded(cap, ops[..n]), Dropped(cap, ops[..n]),
              multiset(After(cap, ops)), multiset(Result(s, op)), multiset(Filter(Expiring(op), s)),
              multiset(PushedOut(cap, s, op)));
    }
  }

  lemma Regroup(s: multiset<Entry>, a: multiset<Entry>, c: multiset<Entry>, d: multiset<Entry>, x: multiset<Entry>,
                s': multiset<Entry>, c': multiset<Entry>, d': multiset<Entry>, x': multiset<Entry>)
    requires s + a == s' + c' + d' + x'
    ensures s + c + d + x + a == s' + (c + c') + (d + d') + (x + x')
  {
    assert s + c + d + x + a == (s + a) + c + d + x;
  }

  /** The first events that the takes which fired were required to find, added up. */
  function Spent(cap: int, ops: seq<Op>): nat {
    if ops == [] then 0
    else
      var n := |ops| - 1;
      Spent(cap, ops[..n]) + if FiresAt(cap, ops, n) then Need(ops[n].minFirstCount) else 0
  }

  lemma {:induction false} SpentIsConsumed(cap: int, ops: seq<Op>)
    ensures Spent(cap, ops) <= |Consumed(cap, ops)|
  {
    if ops != [] {
      SpentIsConsumed(cap, ops[..|ops| - 1]);
    }
  }

  function AddCount(ops: seq<Op>): nat {
    if ops == [] then 0
    else AddCount(ops[..|ops| - 1]) + if ops[|ops| - 1].Add? then 1 else 0
  }

  lemma {:induction false} AddedIsCounted(ops: seq<Op>)
    ensures |Added(ops)| == AddCount(ops)
  {
    if ops != [] {
      AddedIsCounted(ops[..|ops| - 1]);
    }
  }

  /** Each stored event pays for at most one signal: the thresholds of everything fired from a window, and the
      entries still in it, never add up to more than was ever added. */
  lemma SignalsArePaidFor(cap: int, ops: seq<Op>)
    ensures Spent(cap, ops) + |After(cap, ops)| <= AddCount(ops)
  {
    Conservation(cap, ops);
    SpentIsConsumed(cap, ops);
    AddedIsCounted(ops);
  }

  // ---------------------------------------------------------------------------------------------------------
  // The window itself
  // ---------------------------------------------------------------------------------------------------------

  function EventsOf(s: seq<Entry>): seq<Event> {
    if s == [] then [] else EventsOf(s[..|s| - 1]) + [s[|s| - 1].event]
  }

  lemma {:induction false} EventsOfEach(s: seq<Entry>)
    ensures |EventsOf(s)| == |s| && forall i :: 0 <= i < |s| ==> EventsOf(s)[i] == s[i].event
  {
    if s != [] {
      EventsOfEach(s[..|s| - 1]);
    }
  }

  lemma EventsSnoc(s: seq<Entry>, e: Entry)
    ensures EventsOf(s + [e]) == EventsOf(s) + [e.event]
  {
    assert (s + [e])[..|s|] == s;
  }

  lemma NothingFiltered(op: Op)
    ensures Filter(Surviving(op), []) == Filter(Matching(op), []) == [] && EventsOf([]) == []
  {
  }

  class EventWindow {
    var entries: seq<Entry>
    const maxSize: int
    const hasOnDrop: bool
    var reported: nat  // the sum of the counts passed to the drop callback
    ghost var history: seq<Op>

    /** The window is what its history makes of an empty one, and every dropped entry was reported. */
    ghost predicate Valid()
      reads this
    {
      && entries == After(maxSize, history)
      && reported == if hasOnDrop then |Dropped(maxSize, history)| else 0
    }

    constructor (maxSize: int, hasOnDrop: bool)
      ensures Valid() && history == [] && entries == []
      ensures this.maxSize == maxSize && this.hasOnDrop == hasOnDrop
    {
      this.maxSize, this.hasOnDrop := maxSize, hasOnDrop;
      entries, reported, history := [], 0, [];
    }

    method Add(event: Event, ttl: int, now: int)
      requires Valid()
      modifies this
      ensures Valid() && history == old(history) + [Op.Add(event, ttl, now)]
      ensures old(entries) + [Entry(event, now + ttl)]
              == PushedOut(maxSize, old(entries), Op.Add(event, ttl, now)) + entries
      ensures |entries| == if maxSize > 0 && |old(entries)| >= maxSize then maxSize else |old(entries)| + 1
      ensures reported == old(reported) + if hasOnDrop then |old(entries)| + 1 - |entries| else 0
    {
      hide After, Dropped;
      ghost var op := Op.Add(event, ttl, now);
      AddAccounts(maxSize, history, op);
      entries := entries + [Entry(event, now + ttl)];
      if maxSize > 0 && |entries| > maxSize {
        var drop := |entries| - maxSize;
        if hasOnDrop {
          reported := reported + drop;
        }
        entries := entries[drop..];
      }
      history := history + [op];
    }

    method TakeMatchingEntries(sameFields: seq<string>, event: Event, now: int, ghost minFirstCount: int)
      returns (matches: seq<Event>)
      requires Valid()
      modifies this
      ensures Valid() && history == old(history) + [Take(sameFields, event, minFirstCount, now)]
      ensures var found := Result(old(entries), Take(sameFields, event, minFirstCount, now));
              |matches| == |found| && forall i :: 0 <= i < |found| ==> matches[i] == found[i].event
      ensures reported == old(reported)
    {
      hide AfterFrom, Dropped, Filter, EventsOf, FieldsMatch;
      ghost var op := Take(sameFields, event, minFirstCount, now);
      var kept := [];
      matches := [];
      NothingFiltered(op);
      for i := 0 to |entries|
        invariant entries == old(entries) && history == old(history) && reported == old(reported)
        invariant kept == Filter(Surviving(op), entries[..i])
        invariant matches == EventsOf(Filter(Matching(op), entries[..i]))
      {
        var e := entries[i];
        assert entries[..i + 1] == entries[..i] + [e];
        FilterSnoc(Surviving(op), entries[..i], e);
        FilterSnoc(Matching(op), entries[..i], e);
        EventsSnoc(Filter(Matching(op), entries[..i]), e);
        assert Filter(Matching(op), entries[..i]) + [] == Filter(Matching(op), entries[..i]);
        if !(e.expiresAt < now) {
          var same := CompareFields(sameFields, e.event, event);
          if same {
            matches := matches + [e.event];
          } else {
            kept := kept + [e];
          }
        }
      }
      assert entries[..|entries|] == entries;
      EventsOfEach(Filter(Matching(op), entries));
      entries := kept;
      NothingDropped(maxSize, history, op);
      AfterSnoc(maxSize, [], history, op);
      history := history + [op];
    }

    method Size() returns (n: nat)
      ensures n == |entries|
    {
      n := |entries|;
    }

    method Prune(now: int)
      requires Valid()
      modifies this
      ensures Valid() && history == old(history) + [Op.Prune(now)]
      ensures reported == old(reported)
    {
      hide AfterFrom, Dropped, Filter;
      ghost var op := Op.Prune(now);
      var kept := [];
      NothingFiltered(op);
      for i := 0 to |entries|
        invariant entries == old(entries) && history == old(history) && reported == old(reported)
        invariant kept == Filter(Surviving(op), entries[..i])
      {
        assert entries[..i + 1] == entries[..i] + [entries[i]];
        FilterSnoc(Surviving(op), entries[..i], entries[i]);
        if entries[i].expiresAt > now {
          kept := kept + [entries[i]];
        }
      }
      assert entries[..|entries|] == entries;
      entries := kept;
      NothingDropped(maxSize, history, op);
      AfterSnoc(maxSize, [], history, op);
      history := history + [op];
    }
  }

  lemma AddAccounts(cap: int, ops: seq<Op>, op: Op)
    requires op.Add?
    ensures var s := After(cap, ops);
            && After(cap, ops + [op]) == Capped(cap, s + [EntryOf(op)])
            && s + [EntryOf(op)] == PushedOut(cap, s, op) + After(cap, ops + [op])
            && |Dropped(cap, ops + [op])| == |Dropped(cap, ops)| + |PushedOut(cap, s, op)|
    ensures cap > 0 ==> |After(cap, ops)| <= cap
  {
    hide AfterFrom, Dropped, PushedOut, Capped;
    AfterSnoc(cap, [], ops, op);
    DroppedSnoc(cap, ops, op);
    if cap > 0 {
      SizeWithinCap(cap, ops);
    }
    PushedOutOrKept(cap, After(cap, ops), op);
  }

  lemma PushedOutOrKept(cap: int, s: seq<Entry>, op: Op)
    requires op.Add?
    ensures s + [EntryOf(op)] == PushedOut(cap, s, op) + Capped(cap, s + [EntryOf(op)])
  {
  }

  lemma DroppedSnoc(cap: int, ops: seq<Op>, op: Op)
    ensures Dropped(cap, ops + [op]) == Dropped(cap, ops) + multiset(PushedOut(cap, After(cap, ops), op))
  {
    assert (ops + [op])[..|ops|] == ops;
  }

  lemma NothingDropped(cap: int, ops: seq<Op>, op: Op)
    requires !op.Add?
    ensures Dropped(cap, ops + [op]) == Dropped(cap, ops)
  {
    DroppedSnoc(cap, ops, op);
  }

  /** A window never outgrows a positive cap. */
  lemma {:induction false} SizeWithinCap(cap: int, ops: seq<Op>)
    requires cap > 0
    ensures |After(cap, ops)| <= cap
  {
    if ops != [] {
      var n := |ops| - 1;
      SizeWithinCap(cap, ops[..n]);
      if !ops[n].Add? {
        FilterShrinks(Surviving(ops[n]), After(cap, ops[..n]));
      }
    }
  }
}
