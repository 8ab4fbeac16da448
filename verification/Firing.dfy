/** Exactly when a correlation can fire at all. */
module Firing {
  import opened Sequences
  import opened Events
  import opened Windows
  import opened Correlations
  import opened CorrelationProperties

  /** In some run whose clock never goes backwards, some event makes correlation j fire. */
  ghost predicate CanFire(rules: Rules, cap: int, j: nat)
    requires j < |rules.correlations|
  {
    exists start, inputs, event, sections ::
      && AllWellFormed(rules, inputs) && WellFormed(rules, Arrived(event, sections))
      && InOrder(start, inputs + [Arrived(event, sections)])
      && Fires(rules, cap, inputs, event, sections, j)
  }

  /** d compares no known field that c does not also compare. */
  predicate Coarser(d: Correlation, c: Correlation) {
    Known(d.sameFields) <= Known(c.sameFields)
  }

  /** Nothing in the configuration keeps correlation j from firing: it has two types, events stay in its window for
      a time that is not negative, the cap leaves room for as many as it needs, no earlier correlation of the same
      sequence takes them first, and, if it needs several, no correlation between events of the first type takes
      them as they arrive. */
  ghost predicate Unobstructed(rules: Rules, cap: int, j: nat)
    requires j < |rules.correlations|
  {
    var c := rules.correlations[j];
    && |c.sequence| == 2
    && TtlOf(rules, c.sequence[0]) >= 0
    && (cap <= 0 || Need(c.minFirstCount) <= cap)
    && (forall i :: 0 <= i < j && rules.correlations[i].sequence == c.sequence ==> !Coarser(rules.correlations[i], c))
    && (Need(c.minFirstCount) > 1 ==>
          forall d :: d in rules.correlations && d.sequence == [c.sequence[0], c.sequence[0]] ==> !Coarser(d, c))
  }

  // ---------------------------------------------------------------------------------------------------------
  // An obstructed correlation never fires
  // ---------------------------------------------------------------------------------------------------------

  /** What correlation j finds is no more than the cap, and has not expired. */
  lemma FoundWithinCap(rules: Rules, cap: int, start: int, inputs: seq<Input>, event: Event, sections: seq<Section>,
                       j: nat)
    requires AllWellFormed(rules, inputs) && WellFormed(rules, Arrived(event, sections))
    requires InOrder(start, inputs + [Arrived(event, sections)])
    requires j < |rules.correlations| && Applies(rules.correlations[j], event)
    ensures var found := Found(rules, cap, inputs, event, sections, j);
            && (cap > 0 ==> |found| <= cap)
            && (TtlOf(rules, rules.correlations[j].sequence[0]) < 0 ==> found == [])
  {
    var c := rules.correlations[j];
    var f, take := c.sequence[0], TakeOp(c, event, sections[j].now);
    var ops := OpsBefore(rules, f, inputs, event, sections, j);
    hide AfterFrom, OpsBefore, TtlOf;
    FilterShrinks(Matching(take), After(cap, ops));
    if cap > 0 {
      SizeWithinCap(cap, ops);
    }
    if TtlOf(rules, f) < 0 {
      NothingLasts(rules, cap, f, start, inputs, event, sections, j);
      FilterNone(Matching(take), After(cap, ops));
    }
  }

  /** With a negative TTL everything stored has already expired. */
  lemma NothingLasts(rules: Rules, cap: int, f: string, start: int, inputs: seq<Input>, event: Event,
                     sections: seq<Section>, j: nat)
    requires AllWellFormed(rules, inputs) && WellFormed(rules, Arrived(event, sections))
    requires InOrder(start, inputs + [Arrived(event, sections)])
    requires j < |rules.correlations| && TtlOf(rules, f) < 0
    ensures forall e :: e in After(cap, OpsBefore(rules, f, inputs, event, sections, j)) ==>
              e.expiresAt < sections[j].now
  {
    hide AfterFrom, RunOps, TakeOps, PruneOps, TtlOf;
    var last := Arrived(event, sections);
    LastInput(start, inputs, last);
    ClockAdvances(rules, Clock(start, inputs), last);
    ReachableWindow(rules, cap, f, start, inputs);
    var run := RunOps(rules, f, inputs);
    var more := TakeOps(rules, f, event, sections, j) + PruneOps(f, sections[j].prunes);
    TakeOpsAddNothing(rules, f, event, sections, j);
    PruneOpsArePrunes(f, sections[j].prunes);
    OnlyRemoved(cap, After(cap, run), more);
    AfterAppend(cap, [], run, more);
    assert OpsBefore(rules, f, inputs, event, sections, j) == run + more;
    assert sections[j] in sections;
  }

  lemma ObstructedNeverFires(rules: Rules, cap: int, start: int, inputs: seq<Input>, event: Event,
                             sections: seq<Section>, j: nat)
    requires AllWellFormed(rules, inputs) && WellFormed(rules, Arrived(event, sections))
    requires InOrder(start, inputs + [Arrived(event, sections)])
    requires j < |rules.correlations| && Fires(rules, cap, inputs, event, sections, j)
    ensures Unobstructed(rules, cap, j)
  {
    hide Found;
    var c := rules.correlations[j];
    FoundWithinCap(rules, cap, start, inputs, event, sections, j);
    forall i | 0 <= i < j && rules.correlations[i].sequence == c.sequence
      ensures !Coarser(rules.correlations[i], c)
    {
      if Coarser(rules.correlations[i], c) {
        ShadowedNeverFires(rules, cap, inputs, event, sections, i, j);
      }
    }
    forall d | 0 <= d < |rules.correlations| && rules.correlations[d].sequence == [c.sequence[0], c.sequence[0]]
               && Coarser(rules.correlations[d], c)
      ensures Need(c.minFirstCount) <= 1
    {
      FoundBesideSelfSequence(rules, cap, inputs, event, sections, j, d);
    }
  }

  // ---------------------------------------------------------------------------------------------------------
  // An unobstructed correlation can fire
  // ---------------------------------------------------------------------------------------------------------

  function Mark(fields: seq<string>, field: string, k: nat): string {
    if field in fields then "" else seq(k, _ => 'x')
  }

  /** An event whose known fields other than the listed ones all carry mark k. */
  function Marked(eventType: string, fields: seq<string>, k: nat): Event {
    Event(eventType, Mark(fields, "source_chain", k), Mark(fields, "token", k), Mark(fields, "amount", k),
          Mark(fields, "source_address", k), Mark(fields, "contract_address", k),
          Some(Mark(fields, "destination_chain", k)), Some(Mark(fields, "contract_name", k)),
          Some(Mark(fields, "protocol", k)), Some(Mark(fields, "amount_usd", k)))
  }

  lemma MarkedValue(eventType: string, fields: seq<string>, k: nat, field: string)
    ensures FieldValue(field, Marked(eventType, fields, k))
            == if field in KNOWN_FIELDS then Mark(fields, field, k) else ""
  {
    hide Mark;
  }

  /** Events with different marks agree on the listed fields, and on no list that has a further known field. */
  lemma MarksTellApart(t: string, u: string, fields: seq<string>, a: nat, b: nat, other: seq<string>)
    ensures FieldsMatch(fields, Marked(t, fields, a), Marked(u, fields, b))
    ensures a != b && !(Known(other) <= Known(fields)) ==>
              !FieldsMatch(other, Marked(t, fields, a), Marked(u, fields, b))
  {
    hide Marked, FieldValue;
    forall field
      ensures FieldValue(field, Marked(t, fields, a)) == if field in KNOWN_FIELDS then Mark(fields, field, a) else ""
      ensures FieldValue(field, Marked(u, fields, b)) == if field in KNOWN_FIELDS then Mark(fields, field, b) else ""
    {
      MarkedValue(t, fields, a, field);
      MarkedValue(u, fields, b, field);
    }
    if a != b && !(Known(other) <= Known(fields)) {
      var field :| field in Known(other) && field !in Known(fields);
      assert |Mark(fields, field, a)| == a && |Mark(fields, field, b)| == b;
      assert field in other;
    }
  }

  /** Critical sections without prunes, all at time zero. */
  function AtOnce(rules: Rules): (sections: seq<Section>)
    ensures |sections| == |rules.correlations| + 1
    ensures forall s :: s in sections ==> s.now == 0
  {
    seq(|rules.correlations| + 1, _ => Section([], 0))
  }

  /** k events of the type, with marks from one on. */
  function Arriving(rules: Rules, f: string, fields: seq<string>, k: nat): seq<Input> {
    if k == 0 then [] else Arriving(rules, f, fields, k - 1) + [Arrived(Marked(f, fields, k), AtOnce(rules))]
  }

  /** The entries of those events. */
  function Stored(f: string, fields: seq<string>, ttl: int, k: nat): (s: seq<Entry>)
    ensures |s| == k
    ensures forall e :: e in s ==> e.expiresAt == ttl && exists m :: 1 <= m <= k && e.event == Marked(f, fields, m)
  {
    if k == 0 then [] else Stored(f, fields, ttl, k - 1) + [Entry(Marked(f, fields, k), ttl)]
  }

  lemma {:induction false} ArrivingInOrder(rules: Rules, f: string, fields: seq<string>, k: nat)
    ensures AllWellFormed(rules, Arriving(rules, f, fields, k))
    ensures InOrder(0, Arriving(rules, f, fields, k)) && Clock(0, Arriving(rules, f, fields, k)) == 0
  {
    hide InOrder, Clock, Marked, AtOnce;
    if k == 0 {
      NothingInOrder(rules);
    } else {
      ArrivingInOrder(rules, f, fields, k - 1);
      AtOnceFits(rules, Marked(f, fields, k));
      OneMoreInOrder(rules, Arriving(rules, f, fields, k - 1), Marked(f, fields, k));
    }
  }

  lemma NothingInOrder(rules: Rules)
    ensures AllWellFormed(rules, []) && InOrder(0, []) && Clock(0, []) == 0
  {
  }

  lemma AtOnceFits(rules: Rules, event: Event)
    ensures WellFormed(rules, Arrived(event, AtOnce(rules)))
  {
  }

  lemma OneMoreInOrder(rules: Rules, inputs: seq<Input>, event: Event)
    requires InOrder(0, inputs) && Clock(0, inputs) == 0
    ensures InOrder(0, inputs + [Arrived(event, AtOnce(rules))])
    ensures Clock(0, inputs + [Arrived(event, AtOnce(rules))]) == 0
  {
    var all := inputs + [Arrived(event, AtOnce(rules))];
    forall n | 0 <= n < |all|
      ensures InputIn(Clock(0, all[..n]), all[n])
    {
      assert all[..n] == inputs[..n];
    }
    assert all[..|inputs|] == inputs;
  }

  /** Correlations whose takes match nothing leave the window as it is. */
  lemma {:induction false} NothingTaken(rules: Rules, cap: int, f: string, s: seq<Entry>, event: Event, i: nat)
    requires i <= |rules.correlations| && forall e :: e in s ==> e.expiresAt >= 0
    requires forall k :: 0 <= k < i && Applies(rules.correlations[k], event)
                         && rules.correlations[k].sequence[0] == f ==>
               NoneMatch(rules.correlations[k].sameFields, s, event)
    ensures AfterFrom(cap, s, TakeOps(rules, f, event, AtOnce(rules), i)) == s
  {
    hide AfterFrom, TakeOps, TakeIn, NoneMatch, AtOnce, Applies;
    if i == 0 {
      NothingYet(cap, s, rules, f, event);
    } else {
      NothingTaken(rules, cap, f, s, event, i - 1);
      TakeOpsAtOnce(rules, f, event, i - 1);
      OneTakesNothing(cap, s, TakeOps(rules, f, event, AtOnce(rules), i - 1), rules.correlations[i - 1], f, event);
    }
  }

  lemma NothingYet(cap: int, s: seq<Entry>, rules: Rules, f: string, event: Event)
    ensures AfterFrom(cap, s, TakeOps(rules, f, event, AtOnce(rules), 0)) == s
    ensures AllWellFormed(rules, []) && RunOps(rules, f, []) == [] && After(cap, []) == []
  {
  }

  lemma TakeOpsAtOnce(rules: Rules, f: string, event: Event, i: nat)
    requires i < |rules.correlations|
    ensures TakeOps(rules, f, event, AtOnce(rules), i + 1)
            == TakeOps(rules, f, event, AtOnce(rules), i) + TakeIn(rules.correlations[i], f, event, 0)
  {
    NoPrunes();
  }

  lemma OneTakesNothing(cap: int, s: seq<Entry>, before: seq<Op>, c: Correlation, f: string, event: Event)
    requires AfterFrom(cap, s, before) == s && forall e :: e in s ==> e.expiresAt >= 0
    requires Applies(c, event) && c.sequence[0] == f ==> NoneMatch(c.sameFields, s, event)
    ensures AfterFrom(cap, s, before + TakeIn(c, f, event, 0)) == s
  {
    hide AfterFrom;
    if Applies(c, event) && c.sequence[0] == f {
      AfterSnoc(cap, s, before, TakeOp(c, event, 0));
      FilterAll(Surviving(TakeOp(c, event, 0)), s);
    } else {
      assert before + TakeIn(c, f, event, 0) == before;
    }
  }

  ghost predicate NoneMatch(fields: seq<string>, s: seq<Entry>, event: Event) {
    forall e :: e in s ==> !FieldsMatch(fields, e.event, event)
  }

  lemma StoredUnlike(d: Correlation, c: Correlation, f: string, ttl: int, k: nat, t: string, m: nat)
    requires !Coarser(d, c) && (m == 0 || m > k)
    ensures NoneMatch(d.sameFields, Stored(f, c.sameFields, ttl, k), Marked(t, c.sameFields, m))
  {
    forall e | e in Stored(f, c.sameFields, ttl, k)
      ensures !FieldsMatch(d.sameFields, e.event, Marked(t, c.sameFields, m))
    {
      var n :| 1 <= n <= k && e.event == Marked(f, c.sameFields, n);
      MarksTellApart(f, t, c.sameFields, n, m, d.sameFields);
    }
  }

  /** The events arrive and stay. */
  lemma {:induction false} WindowFills(rules: Rules, cap: int, j: nat, k: nat)
    requires j < |rules.correlations| && Unobstructed(rules, cap, j)
    requires k <= Need(rules.correlations[j].minFirstCount)
    ensures var c := rules.correlations[j];
            var inputs := Arriving(rules, c.sequence[0], c.sameFields, k);
            && AllWellFormed(rules, inputs)
            && After(cap, RunOps(rules, c.sequence[0], inputs))
               == Stored(c.sequence[0], c.sameFields, TtlOf(rules, c.sequence[0]), k)
  {
    hide After, RunOps, TtlOf, Marked, AtOnce, AllWellFormed, Known;
    var c := rules.correlations[j];
    if k == 0 {
      NothingYet(cap, [], rules, c.sequence[0], Marked(c.sequence[1], [], 0));
    } else {
      hide Arriving, Stored, Unobstructed;
      WindowFills(rules, cap, j, k - 1);
      WindowFillsFurther(rules, cap, j, k);
    }
  }

  lemma WindowFillsFurther(rules: Rules, cap: int, j: nat, k: nat)
    requires j < |rules.correlations| && Unobstructed(rules, cap, j)
    requires 1 <= k <= Need(rules.correlations[j].minFirstCount)
    requires var c := rules.correlations[j];
             var inputs := Arriving(rules, c.sequence[0], c.sameFields, k - 1);
             && AllWellFormed(rules, inputs)
             && After(cap, RunOps(rules, c.sequence[0], inputs))
                == Stored(c.sequence[0], c.sameFields, TtlOf(rules, c.sequence[0]), k - 1)
    ensures var c := rules.correlations[j];
            var inputs := Arriving(rules, c.sequence[0], c.sameFields, k);
            && AllWellFormed(rules, inputs)
            && After(cap, RunOps(rules, c.sequence[0], inputs))
               == Stored(c.sequence[0], c.sameFields, TtlOf(rules, c.sequence[0]), k)
  {
    hide AfterFrom, Coarser, TakeOps, TtlOf, Marked, RunOps, AtOnce, InputOps, TakeIn;
    var c := rules.correlations[j];
    var f, n := c.sequence[0], |rules.correlations|;
    var inputs, event := Arriving(rules, f, c.sameFields, k - 1), Marked(f, c.sameFields, k);
    var s := Stored(f, c.sameFields, TtlOf(rules, f), k - 1);
    var takes, add := TakeOps(rules, f, event, AtOnce(rules), n), Add(event, TtlOf(rules, f), 0);
    AtOnceFits(rules, event);
    MarkedType(f, c.sameFields, k);
    ArrivingUntaken(rules, cap, j, k);
    InputAtOnce(rules, f, event);
    RunOpsSnoc(rules, inputs, Arrived(event, AtOnce(rules)));
    AfterAppend(cap, [], RunOps(rules, f, inputs), takes + [add]);
    AfterSnoc(cap, s, takes, add);
  }

  lemma InputAtOnce(rules: Rules, f: string, event: Event)
    requires event.eventType == f
    ensures InputOps(rules, f, Arrived(event, AtOnce(rules)))
            == TakeOps(rules, f, event, AtOnce(rules), |rules.correlations|) + [Add(event, TtlOf(rules, f), 0)]
  {
    hide TakeOps, TtlOf;
    NoPrunes();
  }

  lemma MarkedType(eventType: string, fields: seq<string>, k: nat)
    ensures Marked(eventType, fields, k).eventType == eventType
  {
  }

  /** The k-th event takes none of those before it. */
  lemma ArrivingUntaken(rules: Rules, cap: int, j: nat, k: nat)
    requires j < |rules.correlations| && Unobstructed(rules, cap, j)
    requires 1 <= k <= Need(rules.correlations[j].minFirstCount)
    ensures var c := rules.correlations[j];
            var s := Stored(c.sequence[0], c.sameFields, TtlOf(rules, c.sequence[0]), k - 1);
            AfterFrom(cap, s, TakeOps(rules, c.sequence[0], Marked(c.sequence[0], c.sameFields, k), AtOnce(rules),
                                      |rules.correlations|)) == s
  {
    hide AfterFrom, Coarser, TakeOps, TtlOf, Marked, Stored;
    var c := rules.correlations[j];
    var f := c.sequence[0];
    var s, event := Stored(f, c.sameFields, TtlOf(rules, f), k - 1), Marked(f, c.sameFields, k);
    MarkedType(f, c.sameFields, k);
    forall i | 0 <= i < |rules.correlations| && Applies(rules.correlations[i], event)
               && rules.correlations[i].sequence[0] == f
      ensures NoneMatch(rules.correlations[i].sameFields, s, event)
    {
      var d := rules.correlations[i];
      if k > 1 {
        assert d in rules.correlations && d.sequence == [f, f];
        StoredUnlike(d, c, f, TtlOf(rules, f), k - 1, f, k);
      }
    }
    NothingTaken(rules, cap, f, s, event, |rules.correlations|);
  }

  /** The trigger reaches correlation j with all of them in the window. */
  lemma TriggerUntaken(rules: Rules, cap: int, j: nat, k: nat)
    requires j < |rules.correlations| && Unobstructed(rules, cap, j)
    ensures var c := rules.correlations[j];
            var s := Stored(c.sequence[0], c.sameFields, TtlOf(rules, c.sequence[0]), k);
            var event := Marked(c.sequence[1], c.sameFields, 0);
            AfterFrom(cap, s, TakeOps(rules, c.sequence[0], event, AtOnce(rules), j)) == s
  {
    hide AfterFrom, Coarser, TakeOps, TtlOf, Marked, Stored;
    var c := rules.correlations[j];
    var f, t := c.sequence[0], c.sequence[1];
    var s, event := Stored(f, c.sameFields, TtlOf(rules, f), k), Marked(t, c.sameFields, 0);
    MarkedType(t, c.sameFields, 0);
    forall i | 0 <= i < j && Applies(rules.correlations[i], event) && rules.correlations[i].sequence[0] == f
      ensures NoneMatch(rules.correlations[i].sameFields, s, event)
    {
      assert rules.correlations[i].sequence == c.sequence;
      StoredUnlike(rules.correlations[i], c, f, TtlOf(rules, f), k, t, 0);
    }
    NothingTaken(rules, cap, f, s, event, j);
  }

  lemma UnobstructedFires(rules: Rules, cap: int, j: nat)
    requires j < |rules.correlations| && Unobstructed(rules, cap, j)
    ensures CanFire(rules, cap, j)
  {
    hide AfterFrom, TakeOps, RunOps, TtlOf, Marked, Stored, Arriving, InOrder, Clock, Coarser;
    var c := rules.correlations[j];
    var f, t, m := c.sequence[0], c.sequence[1], Need(c.minFirstCount);
    var inputs, event, sections := Arriving(rules, f, c.sameFields, m), Marked(t, c.sameFields, 0), AtOnce(rules);
    var s, take := Stored(f, c.sameFields, TtlOf(rules, f), m), TakeOp(c, event, 0);
    ArrivingInOrder(rules, f, c.sameFields, m);
    OneMoreInOrder(rules, inputs, event);
    MarkedType(t, c.sameFields, 0);
    WindowFills(rules, cap, j, m);
    TriggerUntaken(rules, cap, j, m);
    AfterAppend(cap, [], RunOps(rules, f, inputs), TakeOps(rules, f, event, sections, j));
    assert OpsBefore(rules, f, inputs, event, sections, j)
        == RunOps(rules, f, inputs) + TakeOps(rules, f, event, sections, j);
    forall e | e in s
      ensures Matched(take, e)
    {
      var n :| 1 <= n <= m && e.event == Marked(f, c.sameFields, n);
      MarksTellApart(f, t, c.sameFields, n, 0, []);
    }
    FilterAll(Matching(take), s);
    assert Found(rules, cap, inputs, event, sections, j) == s;
    assert Fires(rules, cap, inputs, event, sections, j);
  }

  /** For every list of correlations, every cap and every position in the list: the correlation can fire in some run
      exactly when nothing in the configuration obstructs it.  So the later of two correlations with the same
      sequence is shadowed exactly when the earlier one compares no known field that it does not. */
  lemma CanFireExactly(rules: Rules, cap: int, j: nat)
    requires j < |rules.correlations|
    ensures CanFire(rules, cap, j) <==> Unobstructed(rules, cap, j)
  {
    hide Fires, Unobstructed, InOrder;
    if CanFire(rules, cap, j) {
      var start, inputs, event, sections :|
        && AllWellFormed(rules, inputs) && WellFormed(rules, Arrived(event, sections))
        && InOrder(start, inputs + [Arrived(event, sections)])
        && Fires(rules, cap, inputs, event, sections, j);
      ObstructedNeverFires(rules, cap, start, inputs, event, sections, j);
    }
    if Unobstructed(rules, cap, j) {
      UnobstructedFires(rules, cap, j);
    }
  }
}
