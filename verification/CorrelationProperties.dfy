/** What holds of the signals and windows of every run. */
module CorrelationProperties {
  import opened Sequences
  import opened Events
  import opened Windows
  import opened Correlations

  // ---------------------------------------------------------------------------------------------------------
  // Reachable windows
  // ---------------------------------------------------------------------------------------------------------

  ghost predicate NoAdds(ops: seq<Op>) {
    forall op :: op in ops ==> !op.Add?
  }

  lemma {:induction false} PruneOpsArePrunes(f: string, prunes: seq<PruneAt>)
    ensures forall op :: op in PruneOps(f, prunes) ==> op.Prune? && exists p :: p in prunes && p.now == op.now
  {
    if prunes != [] {
      PruneOpsArePrunes(f, prunes[..|prunes| - 1]);
    }
  }

  lemma {:induction false} TakeOpsAddNothing(rules: Rules, f: string, event: Event, sections: seq<Section>, i: nat)
    requires i <= |rules.correlations| <= |sections|
    ensures NoAdds(TakeOps(rules, f, event, sections, i))
  {
    if i != 0 {
      TakeOpsAddNothing(rules, f, event, sections, i - 1);
      PruneOpsArePrunes(f, sections[i - 1].prunes);
    }
  }

  /** Every add to a window stores an event of the window's type with the window's one TTL. */
  lemma {:induction false} AddsOfWindow(rules: Rules, f: string, inputs: seq<Input>)
    requires AllWellFormed(rules, inputs)
    ensures forall op :: op in RunOps(rules, f, inputs) && op.Add? ==>
              op.event.eventType == f && op.ttl == TtlOf(rules, f)
  {
    if inputs != [] {
      var n := |inputs| - 1;
      AddsOfWindow(rules, f, inputs[..n]);
      assert WellFormed(rules, inputs[n]);
      match inputs[n]
      case Idle(section) => PruneOpsArePrunes(f, section.prunes);
      case Arrived(event, sections) =>
        TakeOpsAddNothing(rules, f, event, sections, |rules.correlations|);
        PruneOpsArePrunes(f, sections[|rules.correlations|].prunes);
    }
  }

  lemma {:induction false} EntriesWereAdded(cap: int, ops: seq<Op>)
    ensures forall e :: e in After(cap, ops) ==> exists op :: op in ops && op.Add? && EntryOf(op) == e
  {
    if ops != [] {
      var n := |ops| - 1;
      EntriesWereAdded(cap, ops[..n]);
      forall e | e in After(cap, ops)
        ensures exists op :: op in ops && op.Add? && EntryOf(op) == e
      {
        if ops[n].Add? && EntryOf(ops[n]) == e {
          assert ops[n] in ops;
        } else {
          assert e in After(cap, ops[..n]);
          var op :| op in ops[..n] && op.Add? && EntryOf(op) == e;
          assert op in ops;
        }
      }
    }
  }

  /** Every reachable window is in order of expiry, holds only events of its type, and respects a positive cap. */
  lemma {:induction false} ReachableWindow(rules: Rules, cap: int, f: string, start: int, inputs: seq<Input>)
    requires AllWellFormed(rules, inputs) && InOrder(start, inputs)
    ensures var s := After(cap, RunOps(rules, f, inputs));
            && Sorted(s)
            && (forall e :: e in s ==> e.event.eventType == f && e.expiresAt <= Clock(start, inputs) + TtlOf(rules, f))
            && (cap > 0 ==> |s| <= cap)
  {
    var ops := RunOps(rules, f, inputs);
    RunTimed(false, rules, f, start, inputs);
    AddsOfWindow(rules, f, inputs);
    AfterSorted(cap, TtlOf(rules, f), ops);
    EntriesWereAdded(cap, ops);
    if cap > 0 {
      SizeWithinCap(cap, ops);
    }
  }

  // ---------------------------------------------------------------------------------------------------------
  // Pruning changes no signal
  // ---------------------------------------------------------------------------------------------------------

  function WithoutPruning(s: Section): Section {
    Section([], s.now)
  }

  function SectionsWithoutPruning(sections: seq<Section>): seq<Section> {
    seq(|sections|, i requires 0 <= i < |sections| => WithoutPruning(sections[i]))
  }

  function InputWithoutPruning(input: Input): Input {
    match input
    case Idle(section) => Idle(WithoutPruning(section))
    case Arrived(event, sections) => Arrived(event, SectionsWithoutPruning(sections))
  }

  function InputsWithoutPruning(inputs: seq<Input>): seq<Input> {
    if inputs == [] then []
    else InputsWithoutPruning(inputs[..|inputs| - 1]) + [InputWithoutPruning(inputs[|inputs| - 1])]
  }

  lemma {:induction false} OnlyPrunes(f: string, prunes: seq<PruneAt>)
    ensures WithoutPrunes(PruneOps(f, prunes)) == []
  {
    if prunes != [] {
      var n := |prunes| - 1;
      OnlyPrunes(f, prunes[..n]);
      if prunes[n].window == f {
        WithoutPrunesSnoc(PruneOps(f, prunes[..n]), Prune(prunes[n].now));
        assert PruneOps(f, prunes) == PruneOps(f, prunes[..n]) + [Prune(prunes[n].now)];
      } else {
        assert PruneOps(f, prunes) == PruneOps(f, prunes[..n]);
      }
    }
  }

  lemma TakesAreNoPrunes(c: Correlation, f: string, event: Event, now: int)
    ensures WithoutPrunes(TakeIn(c, f, event, now)) == TakeIn(c, f, event, now)
    ensures WithoutPrunes([]) == []
  {
  }

  lemma {:induction false} TakeOpsWithoutPrunes(rules: Rules, f: string, event: Event, sections: seq<Section>, i: nat)
    requires i <= |rules.correlations| <= |sections|
    ensures WithoutPrunes(TakeOps(rules, f, event, sections, i))
            == TakeOps(rules, f, event, SectionsWithoutPruning(sections), i)
  {
    hide WithoutPrunes, PruneOps, TakeIn;
    if i == 0 {
      TakesAreNoPrunes(Correlation("", [], None, [], "", 0.0, 0), f, event, 0);
    } else {
      var before, pruned := TakeOps(rules, f, event, sections, i - 1), PruneOps(f, sections[i - 1].prunes);
      var take := TakeIn(rules.correlations[i - 1], f, event, sections[i - 1].now);
      TakeOpsWithoutPrunes(rules, f, event, sections, i - 1);
      OnlyPrunes(f, sections[i - 1].prunes);
      WithoutPrunesAppend(before, pruned);
      WithoutPrunesAppend(before + pruned, take);
      TakesAreNoPrunes(rules.correlations[i - 1], f, event, sections[i - 1].now);
      NoPrunes();
      assert WithoutPrunes(before) + [] + take == WithoutPrunes(before) + take;
    }
  }

  lemma InputOpsWithoutPrunes(rules: Rules, f: string, input: Input)
    requires WellFormed(rules, input)
    ensures WellFormed(rules, InputWithoutPruning(input))
    ensures WithoutPrunes(InputOps(rules, f, input)) == InputOps(rules, f, InputWithoutPruning(input))
  {
    match input
    case Idle(section) => OnlyPrunes(f, section.prunes);
    case Arrived(event, sections) =>
      var n := |rules.correlations|;
      var takes, pruned := TakeOps(rules, f, event, sections, n), PruneOps(f, sections[n].prunes);
      var add := AddOps(rules, f, event, sections[n].now);
      TakeOpsWithoutPrunes(rules, f, event, sections, n);
      OnlyPrunes(f, sections[n].prunes);
      WithoutPrunesAppend(takes, pruned);
      WithoutPrunesAppend(takes + pruned, add);
      assert WithoutPrunes(add) == add;
  }

  lemma {:induction false} RunOpsWithoutPrunes(rules: Rules, f: string, inputs: seq<Input>)
    requires AllWellFormed(rules, inputs)
    ensures AllWellFormed(rules, InputsWithoutPruning(inputs))
    ensures WithoutPrunes(RunOps(rules, f, inputs)) == RunOps(rules, f, InputsWithoutPruning(inputs))
  {
    if inputs != [] {
      var n := |inputs| - 1;
      RunOpsWithoutPrunes(rules, f, inputs[..n]);
      InputOpsWithoutPrunes(rules, f, inputs[n]);
      WithoutPrunesAppend(RunOps(rules, f, inputs[..n]), InputOps(rules, f, inputs[n]));
      RunOpsSnoc(rules, InputsWithoutPruning(inputs[..n]), InputWithoutPruning(inputs[n]));
    }
  }

  /** When correlation i takes, its window has seen its operations in order, with one TTL. */
  lemma TakeIsTimely(strict: bool, rules: Rules, f: string, start: int, inputs: seq<Input>, event: Event,
                     sections: seq<Section>, i: nat, op: Op)
    requires AllWellFormed(rules, inputs + [Arrived(event, sections)])
    requires InOrder(start, inputs + [Arrived(event, sections)])
    requires strict ==> TicksAfterPrunes(inputs + [Arrived(event, sections)])
    requires AllWellFormed(rules, inputs) && WellFormed(rules, Arrived(event, sections))
    requires i < |rules.correlations| && op.Take? && op.now == sections[i].now
    ensures var ops := OpsBefore(rules, f, inputs, event, sections, i) + [op];
            Timed(strict, ops, op.now, op.now) && FixedTtl(TtlOf(rules, f), ops)
  {
    LastInput(start, inputs, Arrived(event, sections));
    RunTimed(strict, rules, f, start, inputs);
    var run, since := RunOps(rules, f, inputs), Clock(start, inputs);
    TakesTimed(strict, rules, f, run, since, event, sections, i);
    SectionTimed(strict, f, run + TakeOps(rules, f, event, sections, i),
                 ClockIn(since, sections, i), sections[i], [op]);
    AddsOfWindow(rules, f, inputs);
    TakeOpsAddNothing(rules, f, event, sections, i);
    PruneOpsArePrunes(f, sections[i].prunes);
  }

  lemma OpsBeforeWithoutPrunes(rules: Rules, f: string, inputs: seq<Input>, event: Event, sections: seq<Section>,
                               i: nat)
    requires AllWellFormed(rules, inputs) && WellFormed(rules, Arrived(event, sections))
    requires i < |rules.correlations|
    ensures AllWellFormed(rules, InputsWithoutPruning(inputs))
    ensures WithoutPrunes(OpsBefore(rules, f, inputs, event, sections, i))
            == OpsBefore(rules, f, InputsWithoutPruning(inputs), event, SectionsWithoutPruning(sections), i)
  {
    var run, takes := RunOps(rules, f, inputs), TakeOps(rules, f, event, sections, i);
    RunOpsWithoutPrunes(rules, f, inputs);
    TakeOpsWithoutPrunes(rules, f, event, sections, i);
    OnlyPrunes(f, sections[i].prunes);
    WithoutPrunesAppend(run, takes);
    WithoutPrunesAppend(run + takes, PruneOps(f, sections[i].prunes));
  }

  lemma LastTakeUnaffected(cap: int, ttl: int, ops: seq<Op>, take: Op)
    requires take.Take? && Timed(true, ops + [take], take.now, take.now) && FixedTtl(ttl, ops + [take])
    ensures Result(After(cap, ops), take) == Result(After(cap, WithoutPrunes(ops)), take)
  {
    hide AfterFrom, WithoutPrunes, TakeResults, Result, FixedTtl;
    PruningIsInvisible(cap, ttl, ops + [take]);
    WithoutPrunesSnoc(ops, take);
    TakeResultsSnoc(cap, ops, take);
    TakeResultsSnoc(cap, WithoutPrunes(ops), take);
    SameLast(TakeResults(cap, ops), TakeResults(cap, WithoutPrunes(ops)), Result(After(cap, ops), take),
             Result(After(cap, WithoutPrunes(ops)), take));
  }

  /** Whatever the background pruner does, between events or in the middle of one, every event makes the same
      correlations fire as in the run without it. */
  lemma PruningChangesNoSignal(rules: Rules, cap: int, start: int, inputs: seq<Input>, event: Event,
                               sections: seq<Section>, i: nat)
    requires AllWellFormed(rules, inputs) && WellFormed(rules, Arrived(event, sections))
    requires InOrder(start, inputs + [Arrived(event, sections)])
    requires TicksAfterPrunes(inputs + [Arrived(event, sections)])
    requires i < |rules.correlations|
    ensures AllWellFormed(rules, InputsWithoutPruning(inputs))
    ensures Fires(rules, cap, inputs, event, sections, i)
            <==> Fires(rules, cap, InputsWithoutPruning(inputs), event, SectionsWithoutPruning(sections), i)
  {
    RunOpsWithoutPrunes(rules, "", inputs);
    var c := rules.correlations[i];
    if Applies(c, event) {
      var f, op := c.sequence[0], TakeOp(c, event, sections[i].now);
      TakeIsTimely(true, rules, f, start, inputs, event, sections, i, op);
      OpsBeforeWithoutPrunes(rules, f, inputs, event, sections, i);
      LastTakeUnaffected(cap, TtlOf(rules, f), OpsBefore(rules, f, inputs, event, sections, i), op);
    }
  }

  // ---------------------------------------------------------------------------------------------------------
  // What a correlation finds
  // ---------------------------------------------------------------------------------------------------------

  /** As long as the cap is never exceeded, a correlation fires exactly when a scan of everything its window ever
      stored finds enough events that are unexpired, agree with the trigger and were matched by no earlier take
      of any correlation. */
  lemma FiresOnHistoryScan(rules: Rules, cap: int, start: int, inputs: seq<Input>, event: Event,
                           sections: seq<Section>, i: nat)
    requires AllWellFormed(rules, inputs) && WellFormed(rules, Arrived(event, sections))
    requires InOrder(start, inputs + [Arrived(event, sections)])
    requires TicksAfterPrunes(inputs + [Arrived(event, sections)])
    requires i < |rules.correlations| && Applies(rules.correlations[i], event)
    requires var ops := OpsBefore(rules, rules.correlations[i].sequence[0], inputs, event, sections, i);
             cap <= 0 || forall m :: 0 <= m <= |ops| ==> |After(0, ops[..m])| <= cap
    ensures var c := rules.correlations[i];
            var ops := OpsBefore(rules, c.sequence[0], inputs, event, sections, i);
            var found := HistoryScan(ops + [TakeOp(c, event, sections[i].now)], |ops|);
            && Found(rules, cap, inputs, event, sections, i) == found
            && (Fires(rules, cap, inputs, event, sections, i) <==> |found| >= Need(c.minFirstCount))
  {
    var c := rules.correlations[i];
    var ops := OpsBefore(rules, c.sequence[0], inputs, event, sections, i);
    var op := TakeOp(c, event, sections[i].now);
    TakeIsTimely(true, rules, c.sequence[0], start, inputs, event, sections, i, op);
    forall m | 0 <= m <= |ops|
      ensures (ops + [op])[..m] == ops[..m]
    {
    }
    assert ops[..|ops|] == ops;
    TakeIsHistoryScan(cap, ops + [op], |ops|);
  }

  /** The events of type `first` with the trigger's key, unexpired at `now`, that arrived since the previous event
      of type `second` with that key, counted backwards from the end of the run. */
  ghost function CountSinceLastTrigger(c: Correlation, ttl: int, inputs: seq<Input>, trigger: Event, now: int): nat
    requires |c.sequence| == 2
  {
    if inputs == [] then 0
    else
      var n := |inputs| - 1;
      match inputs[n]
      case Idle(_) => CountSinceLastTrigger(c, ttl, inputs[..n], trigger, now)
      case Arrived(event, sections) =>
        var sameKey := FieldsMatch(c.sameFields, event, trigger);
        var stored := if sections == [] then 0 else sections[|sections| - 1].now;
        var own := if event.eventType == c.sequence[0] && sameKey && now <= stored + ttl then 1 else 0;
        if event.eventType == c.sequence[1] && sameKey then own
        else own + CountSinceLastTrigger(c, ttl, inputs[..n], trigger, now)
  }

  lemma {:induction false} PrunesKeepMatches(f: string, s: seq<Entry>, prunes: seq<PruneAt>, take: Op)
    requires take.Take? && forall p :: p in prunes ==> p.now < take.now
    ensures Result(AfterFrom(0, s, PruneOps(f, prunes)), take) == Result(s, take)
  {
    if prunes != [] {
      var n := |prunes| - 1;
      PrunesKeepMatches(f, s, prunes[..n], take);
      if prunes[n].window == f {
        var before, op := PruneOps(f, prunes[..n]), Prune(prunes[n].now);
        AfterSnoc(0, s, before, op);
        assert PruneOps(f, prunes) == before + [op];
        MatchesSurvive(0, AfterFrom(0, s, before), op, take);
      } else {
        assert PruneOps(f, prunes) == PruneOps(f, prunes[..n]);
      }
    }
  }

  /** A trigger leaves nothing for a later trigger with its key, and everything for one with another key. */
  lemma TakeThenTake(s: seq<Entry>, first: Op, second: Op)
    requires first.Take? && second.Take? && first.fields == second.fields && first.now <= second.now
    ensures Result(Step(0, s, first), second)
            == if FieldsMatch(first.fields, first.trigger, second.trigger) then [] else Result(s, second)
  {
    if FieldsMatch(first.fields, first.trigger, second.trigger) {
      FilterNone(Matching(second), Step(0, s, first));
    } else {
      MatchesSurvive(0, s, first, second);
    }
  }

  lemma AddThenTake(s: seq<Entry>, add: Op, take: Op)
    requires add.Add? && take.Take?
    ensures |Result(Step(0, s, add), take)| == |Result(s, take)| + if Matched(take, EntryOf(add)) then 1 else 0
  {
    FilterAppend(Matching(take), s, [EntryOf(add)]);
  }

  /** How much more of what a lone correlation's trigger finds is due to the event itself. */
  function OwnMatch(rules: Rules, event: Event, stored: int, take: Op): nat
    requires |rules.correlations| == 1 && |rules.correlations[0].sequence| == 2
  {
    var f := rules.correlations[0].sequence[0];
    if event.eventType == f && Matched(take, Entry(event, stored + TtlOf(rules, f))) then 1 else 0
  }

  lemma LoneIdle(rules: Rules, s: seq<Entry>, since: int, section: Section, take: Op)
    requires |rules.correlations| == 1 && |rules.correlations[0].sequence| == 2 && take.Take?
    requires InputIn(since, Idle(section)) && TicksIn(Idle(section)) && section.now <= take.now
    ensures var f := rules.correlations[0].sequence[0];
            Result(AfterFrom(0, s, InputOps(rules, f, Idle(section))), take) == Result(s, take)
  {
    hide AfterFrom, PruneOps, Result;
    PrunesKeepMatches(rules.correlations[0].sequence[0], s, section.prunes, take);
  }

  /** A lone correlation's operations on its window, when an event arrives. */
  lemma LoneOps(rules: Rules, event: Event, sections: seq<Section>)
    requires |rules.correlations| == 1 && |rules.correlations[0].sequence| == 2
    requires WellFormed(rules, Arrived(event, sections))
    ensures var c := rules.correlations[0];
            var f := c.sequence[0];
            InputOps(rules, f, Arrived(event, sections))
            == PruneOps(f, sections[0].prunes) + TakeIn(c, f, event, sections[0].now)
               + PruneOps(f, sections[1].prunes) + AddOps(rules, f, event, sections[1].now)
  {
    hide PruneOps, TakeIn, AddOps;
    assert TakeOps(rules, rules.correlations[0].sequence[0], event, sections, 0) == [];
  }

  /** A lone correlation's own take. */
  lemma LoneTake(c: Correlation, s: seq<Entry>, event: Event, now: int, take: Op)
    requires |c.sequence| == 2 && take.Take? && take.fields == c.sameFields && now <= take.now
    ensures |Result(AfterFrom(0, s, TakeIn(c, c.sequence[0], event, now)), take)|
            == if event.eventType == c.sequence[1] && FieldsMatch(c.sameFields, event, take.trigger)
               then 0 else |Result(s, take)|
  {
    hide Result;
    var t := TakeIn(c, c.sequence[0], event, now);
    if t != [] {
      AfterSnoc(0, s, [], t[0]);
      TakeThenTake(s, t[0], take);
    }
  }

  lemma LoneAdd(rules: Rules, s: seq<Entry>, event: Event, now: int, take: Op)
    requires |rules.correlations| == 1 && |rules.correlations[0].sequence| == 2 && take.Take?
    ensures |Result(AfterFrom(0, s, AddOps(rules, rules.correlations[0].sequence[0], event, now)), take)|
            == OwnMatch(rules, event, now, take) + |Result(s, take)|
  {
    hide Result, TtlOf;
    var a := AddOps(rules, rules.correlations[0].sequence[0], event, now);
    if a != [] {
      AfterSnoc(0, s, [], a[0]);
      AddThenTake(s, a[0], take);
    }
  }

  lemma LoneArrival(rules: Rules, s: seq<Entry>, since: int, event: Event, sections: seq<Section>, take: Op)
    requires |rules.correlations| == 1 && |rules.correlations[0].sequence| == 2
    requires WellFormed(rules, Arrived(event, sections)) && InputIn(since, Arrived(event, sections))
    requires TicksIn(Arrived(event, sections)) && sections[1].now <= take.now
    requires take.Take? && take.fields == rules.correlations[0].sameFields
    ensures var c := rules.correlations[0];
            |Result(AfterFrom(0, s, InputOps(rules, c.sequence[0], Arrived(event, sections))), take)|
            == OwnMatch(rules, event, sections[1].now, take)
               + if event.eventType == c.sequence[1] && FieldsMatch(c.sameFields, event, take.trigger)
                 then 0 else |Result(s, take)|
  {
    var c := rules.correlations[0];
    var f := c.sequence[0];
    assert SectionIn(ClockIn(since, sections, 0), sections[0]) && SectionIn(ClockIn(since, sections, 1), sections[1]);
    assert TickAfterPrunes(sections[0]) && TickAfterPrunes(sections[1]);
    hide AfterFrom, Result, PruneOps, TakeIn, AddOps, TtlOf, OwnMatch, InputOps, FieldsMatch;
    var p0, p1 := PruneOps(f, sections[0].prunes), PruneOps(f, sections[1].prunes);
    var t, a := TakeIn(c, f, event, sections[0].now), AddOps(rules, f, event, sections[1].now);
    var s1 := AfterFrom(0, s, p0);
    var s2 := AfterFrom(0, s1, t);
    var s3 := AfterFrom(0, s2, p1);
    PrunesKeepMatches(f, s, sections[0].prunes, take);
    LoneTake(c, s1, event, sections[0].now, take);
    PrunesKeepMatches(f, s2, sections[1].prunes, take);
    LoneAdd(rules, s3, event, sections[1].now, take);
    AfterAppend(0, s, p0, t);
    AfterAppend(0, s, p0 + t, p1);
    AfterAppend(0, s, p0 + t + p1, a);
    LoneOps(rules, event, sections);
  }

  lemma CountSnoc(rules: Rules, inputs: seq<Input>, last: Input, take: Op)
    requires |rules.correlations| == 1 && |rules.correlations[0].sequence| == 2 && WellFormed(rules, last) && take.Take?
    requires take.fields == rules.correlations[0].sameFields
    ensures var c := rules.correlations[0];
            var ttl := TtlOf(rules, c.sequence[0]);
            var before := CountSinceLastTrigger(c, ttl, inputs, take.trigger, take.now);
            CountSinceLastTrigger(c, ttl, inputs + [last], take.trigger, take.now)
            == match last
               case Idle(_) => before
               case Arrived(event, sections) =>
                 OwnMatch(rules, event, sections[1].now, take)
                 + if event.eventType == c.sequence[1] && FieldsMatch(c.sameFields, event, take.trigger)
                   then 0 else before
  {
    hide FieldsMatch, TtlOf;
    assert (inputs + [last])[..|inputs|] == inputs;
  }

  /** One more input, for a lone correlation. */
  lemma LoneStep(rules: Rules, s: seq<Entry>, since: int, input: Input, take: Op)
    requires |rules.correlations| == 1 && |rules.correlations[0].sequence| == 2
    requires WellFormed(rules, input) && InputIn(since, input) && TicksIn(input) && ClockAfter(since, input) <= take.now
    requires take.Take? && take.fields == rules.correlations[0].sameFields
    ensures var c := rules.correlations[0];
            |Result(AfterFrom(0, s, InputOps(rules, c.sequence[0], input)), take)|
            == match input
               case Idle(_) => |Result(s, take)|
               case Arrived(event, sections) =>
                 OwnMatch(rules, event, sections[1].now, take)
                 + if event.eventType == c.sequence[1] && FieldsMatch(c.sameFields, event, take.trigger)
                   then 0 else |Result(s, take)|
  {
    hide AfterFrom, InputOps, Result, InputIn, TicksIn, FieldsMatch, OwnMatch;
    match input
    case Idle(section) => LoneIdle(rules, s, since, section, take);
    case Arrived(event, sections) => LoneArrival(rules, s, since, event, sections, take);
  }

  lemma {:induction false} LoneRun(rules: Rules, start: int, inputs: seq<Input>, take: Op)
    requires |rules.correlations| == 1 && |rules.correlations[0].sequence| == 2
    requires AllWellFormed(rules, inputs) && InOrder(start, inputs) && TicksAfterPrunes(inputs)
    requires inputs != [] ==> Clock(start, inputs) <= take.now
    requires take.Take? && take.fields == rules.correlations[0].sameFields
    ensures var c := rules.correlations[0];
            |Result(After(0, RunOps(rules, c.sequence[0], inputs)), take)|
            == CountSinceLastTrigger(c, TtlOf(rules, c.sequence[0]), inputs, take.trigger, take.now)
  {
    if inputs == [] {
      AfterNothing(0, []);
    } else {
      hide AfterFrom, RunOps, InputOps, Result, InputIn, TicksIn, InOrder, TtlOf, FieldsMatch, Clock, ClockAfter;
      hide CountSinceLastTrigger, OwnMatch;
      var c, init, last := rules.correlations[0], inputs[..|inputs| - 1], inputs[|inputs| - 1];
      assert inputs == init + [last];
      LastInput(start, init, last);
      ClockSnoc(rules, start, init, last);
      ClockAdvances(rules, Clock(start, init), last);
      LoneRun(rules, start, init, take);
      RunOpsSnoc(rules, init, last);
      AfterAppend(0, [], RunOps(rules, c.sequence[0], init), InputOps(rules, c.sequence[0], last));
      LoneStep(rules, After(0, RunOps(rules, c.sequence[0], init)), Clock(start, init), last, take);
      CountSnoc(rules, init, last, take);
    }
  }

  lemma ClockSnoc(rules: Rules, start: int, inputs: seq<Input>, last: Input)
    requires WellFormed(rules, last)
    ensures Clock(start, inputs + [last]) == ClockAfter(Clock(start, inputs), last)
  {
    assert (inputs + [last])[..|inputs|] == inputs;
  }

  lemma ClockAdvances(rules: Rules, since: int, input: Input)
    requires WellFormed(rules, input) && InputIn(since, input)
    ensures since <= ClockAfter(since, input)
    ensures input.Arrived? ==> forall s :: s in input.sections ==> since <= s.now
  {
    if input.Arrived? {
      forall i | 0 <= i < |input.sections|
        ensures since <= input.sections[i].now
      {
        SectionsAdvance(since, input.sections, i);
      }
    }
  }

  lemma {:induction false} SectionsAdvance(since: int, sections: seq<Section>, i: nat)
    requires SectionsIn(since, sections) && i < |sections|
    ensures since <= sections[i].now
  {
    assert SectionIn(ClockIn(since, sections, i), sections[i]);
    if i != 0 {
      SectionsAdvance(since, sections, i - 1);
    }
  }

  /** A lone correlation fires on a trigger exactly when enough unexpired first events with the trigger's key
      arrived since the previous trigger with that key, provided the cap is never exceeded. */
  lemma LoneCorrelationFires(rules: Rules, cap: int, start: int, inputs: seq<Input>, event: Event,
                             sections: seq<Section>)
    requires |rules.correlations| == 1
    requires AllWellFormed(rules, inputs) && WellFormed(rules, Arrived(event, sections))
    requires InOrder(start, inputs + [Arrived(event, sections)])
    requires TicksAfterPrunes(inputs + [Arrived(event, sections)])
    requires Applies(rules.correlations[0], event)
    requires var ops := OpsBefore(rules, rules.correlations[0].sequence[0], inputs, event, sections, 0);
             cap <= 0 || forall m :: 0 <= m <= |ops| ==> |After(0, ops[..m])| <= cap
    ensures var c := rules.correlations[0];
            Fires(rules, cap, inputs, event, sections, 0)
            <==> CountSinceLastTrigger(c, TtlOf(rules, c.sequence[0]), inputs, event, sections[0].now)
                 >= Need(c.minFirstCount)
  {
    var c := rules.correlations[0];
    var f, take := c.sequence[0], TakeOp(c, event, sections[0].now);
    LastInput(start, inputs, Arrived(event, sections));
    assert SectionIn(ClockIn(Clock(start, inputs), sections, 0), sections[0]);
    assert TickAfterPrunes(sections[0]);
    LoneRun(rules, start, inputs, take);
    LoneTakeOps(rules, inputs, event, sections, take);
    CapNeverReached(cap, OpsBefore(rules, f, inputs, event, sections, 0));
  }

  lemma LastInput(start: int, inputs: seq<Input>, last: Input)
    requires InOrder(start, inputs + [last])
    ensures InOrder(start, inputs) && InputIn(Clock(start, inputs), last)
    ensures TicksAfterPrunes(inputs + [last]) ==> TicksIn(last) && TicksAfterPrunes(inputs)
  {
    var all := inputs + [last];
    assert all[..|inputs|] == inputs && all[|inputs|] == last;
    InOrderPrefix(start, all, |inputs|);
    assert last in all && forall input :: input in inputs ==> input in all;
  }

  lemma LoneTakeOps(rules: Rules, inputs: seq<Input>, event: Event, sections: seq<Section>, take: Op)
    requires |rules.correlations| == 1 && |rules.correlations[0].sequence| == 2
    requires AllWellFormed(rules, inputs) && WellFormed(rules, Arrived(event, sections))
    requires take.Take? && forall p :: p in sections[0].prunes ==> p.now < take.now
    ensures var f := rules.correlations[0].sequence[0];
            Result(After(0, OpsBefore(rules, f, inputs, event, sections, 0)), take)
            == Result(After(0, RunOps(rules, f, inputs)), take)
  {
    hide AfterFrom, RunOps, PruneOps, Result;
    var f := rules.correlations[0].sequence[0];
    var run, pruned := RunOps(rules, f, inputs), PruneOps(f, sections[0].prunes);
    PrunesKeepMatches(f, After(0, run), sections[0].prunes, take);
    AfterAppend(0, [], run, pruned);
    assert OpsBefore(rules, f, inputs, event, sections, 0) == run + pruned;
  }

  // ---------------------------------------------------------------------------------------------------------
  // Shadowing
  // ---------------------------------------------------------------------------------------------------------

  /** Operations other than adds only remove entries. */
  lemma {:induction false} OnlyRemoved(cap: int, s: seq<Entry>, ops: seq<Op>)
    requires NoAdds(ops)
    ensures forall e :: e in AfterFrom(cap, s, ops) ==> e in s
  {
    if ops != [] {
      OnlyRemoved(cap, s, ops[..|ops| - 1]);
    }
  }

  /** The section of one correlation, prunes included, as one list. */
  function SectionOps(rules: Rules, f: string, event: Event, sections: seq<Section>, i: nat): seq<Op>
    requires i < |rules.correlations| <= |sections|
  {
    PruneOps(f, sections[i].prunes) + TakeIn(rules.correlations[i], f, event, sections[i].now)
  }

  lemma TakeInAddsNothing(c: Correlation, f: string, event: Event, now: int)
    ensures NoAdds(TakeIn(c, f, event, now))
  {
  }

  lemma SectionAppends(rules: Rules, cap: int, f: string, s: seq<Entry>, event: Event, sections: seq<Section>, i: nat)
    requires i < |rules.correlations| <= |sections|
    ensures NoAdds(SectionOps(rules, f, event, sections, i))
    ensures AfterFrom(cap, s, TakeOps(rules, f, event, sections, i + 1))
            == AfterFrom(cap, AfterFrom(cap, s, TakeOps(rules, f, event, sections, i)),
                         SectionOps(rules, f, event, sections, i))
  {
    hide AfterFrom, PruneOps, TakeIn;
    PruneOpsArePrunes(f, sections[i].prunes);
    TakeInAddsNothing(rules.correlations[i], f, event, sections[i].now);
    AfterAppend(cap, s, TakeOps(rules, f, event, sections, i), SectionOps(rules, f, event, sections, i));
    assert TakeOps(rules, f, event, sections, i + 1)
        == TakeOps(rules, f, event, sections, i) + SectionOps(rules, f, event, sections, i);
  }

  /** The section of a correlation that applies leaves nothing unexpired that agrees with the event. */
  lemma SectionDrains(rules: Rules, cap: int, f: string, s: seq<Entry>, event: Event, sections: seq<Section>, i: nat)
    requires i < |rules.correlations| <= |sections|
    requires Applies(rules.correlations[i], event) && rules.correlations[i].sequence[0] == f
    ensures forall e :: e in AfterFrom(cap, s, TakeOps(rules, f, event, sections, i + 1)) ==>
              sections[i].now <= e.expiresAt && !FieldsMatch(rules.correlations[i].sameFields, e.event, event)
  {
    var ops := TakeOps(rules, f, event, sections, i) + PruneOps(f, sections[i].prunes);
    var op := TakeOp(rules.correlations[i], event, sections[i].now);
    AfterSnoc(cap, s, ops, op);
    assert TakeOps(rules, f, event, sections, i + 1) == ops + [op];
  }

  /** Later sections of the same event add nothing back. */
  lemma {:induction false} DrainedStays(rules: Rules, cap: int, f: string, s: seq<Entry>, event: Event,
                                        sections: seq<Section>, i: nat, j: nat)
    requires i <= j <= |rules.correlations| <= |sections|
    ensures forall e :: e in AfterFrom(cap, s, TakeOps(rules, f, event, sections, j)) ==>
              e in AfterFrom(cap, s, TakeOps(rules, f, event, sections, i))
    decreases j
  {
    hide AfterFrom, TakeOps, SectionOps;
    if i < j {
      DrainedStays(rules, cap, f, s, event, sections, i, j - 1);
      SectionAppends(rules, cap, f, s, event, sections, j - 1);
      OnlyRemoved(cap, AfterFrom(cap, s, TakeOps(rules, f, event, sections, j - 1)),
                  SectionOps(rules, f, event, sections, j - 1));
    }
  }

  /** What is left of the window at the section of correlation j was left by the sections before it. */
  lemma OpsBeforeSplit(rules: Rules, cap: int, f: string, inputs: seq<Input>, event: Event, sections: seq<Section>,
                       j: nat)
    requires AllWellFormed(rules, inputs) && WellFormed(rules, Arrived(event, sections))
    requires j < |rules.correlations|
    ensures forall e :: e in After(cap, OpsBefore(rules, f, inputs, event, sections, j)) ==>
              e in AfterFrom(cap, After(cap, RunOps(rules, f, inputs)), TakeOps(rules, f, event, sections, j))
  {
    var run, takes := RunOps(rules, f, inputs), TakeOps(rules, f, event, sections, j);
    var pruned := PruneOps(f, sections[j].prunes);
    AfterAppend(cap, [], run, takes);
    AfterAppend(cap, [], run + takes, pruned);
    PruneOpsArePrunes(f, sections[j].prunes);
    OnlyRemoved(cap, After(cap, run + takes), pruned);
  }

  /** Shadowing: when an earlier correlation has the same sequence and compares no known field that the later one
      does not also compare, the later one never fires, in any run, whatever their windows and thresholds. */
  lemma ShadowedNeverFires(rules: Rules, cap: int, inputs: seq<Input>, event: Event, sections: seq<Section>,
                           i: nat, j: nat)
    requires AllWellFormed(rules, inputs) && WellFormed(rules, Arrived(event, sections))
    requires i < j < |rules.correlations|
    requires rules.correlations[i].sequence == rules.correlations[j].sequence
    requires Known(rules.correlations[i].sameFields) <= Known(rules.correlations[j].sameFields)
    ensures !Fires(rules, cap, inputs, event, sections, j)
  {
    var c, d := rules.correlations[j], rules.correlations[i];
    if Applies(c, event) {
      hide AfterFrom, OpsBefore, Known, FieldsMatch;
      ShadowedMatchesNothing(rules, cap, inputs, event, sections, i, j);
      CoarserFields(d.sameFields, c.sameFields);
      FilterNone(Matching(TakeOp(c, event, sections[j].now)),
                 After(cap, OpsBefore(rules, c.sequence[0], inputs, event, sections, j)));
    }
  }

  /** What an earlier correlation of the same sequence leaves agrees with the event on none of its own keys. */
  lemma ShadowedMatchesNothing(rules: Rules, cap: int, inputs: seq<Input>, event: Event, sections: seq<Section>,
                               i: nat, j: nat)
    requires AllWellFormed(rules, inputs) && WellFormed(rules, Arrived(event, sections))
    requires i < j < |rules.correlations| && Applies(rules.correlations[i], event)
    ensures var d := rules.correlations[i];
            forall e :: e in After(cap, OpsBefore(rules, d.sequence[0], inputs, event, sections, j)) ==>
              !FieldsMatch(d.sameFields, e.event, event)
  {
    hide AfterFrom, TakeOps, RunOps, OpsBefore, FieldsMatch;
    var f := rules.correlations[i].sequence[0];
    var s := After(cap, RunOps(rules, f, inputs));
    SectionDrains(rules, cap, f, s, event, sections, i);
    DrainedStays(rules, cap, f, s, event, sections, i + 1, j);
    OpsBeforeSplit(rules, cap, f, inputs, event, sections, j);
  }

  // ---------------------------------------------------------------------------------------------------------
  // Self-sequences
  // ---------------------------------------------------------------------------------------------------------

  /** No two entries have the same key. */
  ghost predicate Apart(s: seq<Entry>, fields: seq<string>) {
    forall p, q :: 0 <= p < q < |s| ==> !FieldsMatch(fields, s[p].event, s[q].event)
  }

  lemma {:induction false} FilterApart(p: Entry -> bool, s: seq<Entry>, fields: seq<string>)
    requires Apart(s, fields)
    ensures Apart(Filter(p, s), fields)
  {
    if s != [] {
      FilterApart(p, s[..|s| - 1], fields);
      var rest := Filter(p, s[..|s| - 1]);
      forall k | 0 <= k < |rest|
        ensures !FieldsMatch(fields, rest[k].event, s[|s| - 1].event)
      {
        assert rest[k] in s[..|s| - 1];
      }
    }
  }

  lemma {:induction false} RemovalsKeepApart(cap: int, s: seq<Entry>, ops: seq<Op>, fields: seq<string>)
    requires NoAdds(ops) && Apart(s, fields)
    ensures Apart(AfterFrom(cap, s, ops), fields)
  {
    if ops != [] {
      var n := |ops| - 1;
      RemovalsKeepApart(cap, s, ops[..n], fields);
      FilterApart(Surviving(ops[n]), AfterFrom(cap, s, ops[..n]), fields);
    }
  }

  /** Storing an event keeps keys apart when no stored event has its key. */
  lemma AddKeepsApart(cap: int, s: seq<Entry>, e: Entry, fields: seq<string>)
    requires Apart(s, fields) && forall x :: x in s ==> !FieldsMatch(fields, x.event, e.event)
    ensures Apart(Capped(cap, s + [e]), fields)
  {
    assert Apart(s + [e], fields);
  }

  /** The window of a self-sequence has at most one entry per key after every event. */
  lemma {:induction false} SelfWindowApart(rules: Rules, cap: int, inputs: seq<Input>, i: nat)
    requires AllWellFormed(rules, inputs) && i < |rules.correlations|
    requires var q := rules.correlations[i].sequence; |q| == 2 && q[0] == q[1]
    ensures var c := rules.correlations[i];
            Apart(After(cap, RunOps(rules, c.sequence[0], inputs)), c.sameFields)
  {
    if inputs != [] {
      var n := |inputs| - 1;
      SelfWindowApart(rules, cap, inputs[..n], i);
      var f := rules.correlations[i].sequence[0];
      SelfInputApart(rules, cap, After(cap, RunOps(rules, f, inputs[..n])), inputs[n], i);
      AfterAppend(cap, [], RunOps(rules, f, inputs[..n]), InputOps(rules, f, inputs[n]));
    }
  }

  lemma SelfInputApart(rules: Rules, cap: int, s: seq<Entry>, input: Input, i: nat)
    requires WellFormed(rules, input) && i < |rules.correlations|
    requires var q := rules.correlations[i].sequence; |q| == 2 && q[0] == q[1]
    requires Apart(s, rules.correlations[i].sameFields)
    ensures var c := rules.correlations[i];
            Apart(AfterFrom(cap, s, InputOps(rules, c.sequence[0], input)), c.sameFields)
  {
    hide AfterFrom, TakeOps, PruneOps, Apart;
    var c := rules.correlations[i];
    var f := c.sequence[0];
    match input
    case Idle(section) =>
      PruneOpsArePrunes(f, section.prunes);
      RemovalsKeepApart(cap, s, PruneOps(f, section.prunes), c.sameFields);
    case Arrived(event, sections) =>
      var n := |rules.correlations|;
      var removals := TakeOps(rules, f, event, sections, n) + PruneOps(f, sections[n].prunes);
      TakeOpsAddNothing(rules, f, event, sections, n);
      PruneOpsArePrunes(f, sections[n].prunes);
      RemovalsKeepApart(cap, s, removals, c.sameFields);
      if event.eventType == f {
        SelfEventDrained(rules, cap, s, event, sections, i);
        var add := Add(event, TtlOf(rules, f), sections[n].now);
        AddKeepsApart(cap, AfterFrom(cap, s, removals), EntryOf(add), c.sameFields);
        AfterSnoc(cap, s, removals, add);
        assert InputOps(rules, f, input) == removals + [add];
      } else {
        assert InputOps(rules, f, input) == removals;
      }
  }

  /** When an event of a self-sequence is about to be stored, nothing in the window has its key. */
  lemma SelfEventDrained(rules: Rules, cap: int, s: seq<Entry>, event: Event, sections: seq<Section>, i: nat)
    requires WellFormed(rules, Arrived(event, sections)) && i < |rules.correlations|
    requires Applies(rules.correlations[i], event) && rules.correlations[i].sequence[0] == event.eventType
    ensures var c, n := rules.correlations[i], |rules.correlations|;
            var f := c.sequence[0];
            var removals := TakeOps(rules, f, event, sections, n) + PruneOps(f, sections[n].prunes);
            forall e :: e in AfterFrom(cap, s, removals) ==>
              !FieldsMatch(c.sameFields, e.event, event)
  {
    hide AfterFrom, TakeOps, PruneOps;
    var f, n := event.eventType, |rules.correlations|;
    var takes, pruned := TakeOps(rules, f, event, sections, n), PruneOps(f, sections[n].prunes);
    SectionDrains(rules, cap, f, s, event, sections, i);
    DrainedStays(rules, cap, f, s, event, sections, i + 1, n);
    AfterAppend(cap, s, takes, pruned);
    PruneOpsArePrunes(f, sections[n].prunes);
    OnlyRemoved(cap, AfterFrom(cap, s, takes), pruned);
  }

  /** A correlation of the same window, coarser on known fields, whose sequence repeats the window's type leaves at
      most one event to be found. */
  lemma FoundBesideSelfSequence(rules: Rules, cap: int, inputs: seq<Input>, event: Event, sections: seq<Section>,
                                i: nat, d: nat)
    requires AllWellFormed(rules, inputs) && WellFormed(rules, Arrived(event, sections))
    requires i < |rules.correlations| && Applies(rules.correlations[i], event) && d < |rules.correlations|
    requires rules.correlations[d].sequence == [rules.correlations[i].sequence[0], rules.correlations[i].sequence[0]]
    requires Known(rules.correlations[d].sameFields) <= Known(rules.correlations[i].sameFields)
    ensures |Found(rules, cap, inputs, event, sections, i)| <= 1
  {
    hide AfterFrom, RunOps, TakeOps;
    var c, fields := rules.correlations[i], rules.correlations[d].sameFields;
    var f := c.sequence[0];
    var run := RunOps(rules, f, inputs);
    var more := TakeOps(rules, f, event, sections, i) + PruneOps(f, sections[i].prunes);
    SelfWindowApart(rules, cap, inputs, d);
    TakeOpsAddNothing(rules, f, event, sections, i);
    PruneOpsArePrunes(f, sections[i].prunes);
    RemovalsKeepApart(cap, After(cap, run), more, fields);
    AfterAppend(cap, [], run, more);
    assert OpsBefore(rules, f, inputs, event, sections, i) == run + more;
    FilterApart(Matching(TakeOp(c, event, sections[i].now)), After(cap, run + more), fields);
    CoarserFields(fields, c.sameFields);
    MatchesNotApart(Found(rules, cap, inputs, event, sections, i), c.sameFields, fields, event);
  }

  lemma MatchesNotApart(found: seq<Entry>, fields: seq<string>, coarse: seq<string>, event: Event)
    requires forall e :: e in found ==> FieldsMatch(fields, e.event, event)
    requires forall a, b :: FieldsMatch(fields, a, b) ==> FieldsMatch(coarse, a, b)
    requires Apart(found, coarse)
    ensures |found| <= 1
  {
    if |found| >= 2 {
      assert found[0] in found && found[1] in found;
      assert FieldsMatch(fields, found[0].event, found[1].event);
    }
  }

  /** A correlation whose sequence repeats one type finds at most one event, so it never fires when it needs two
      or more: an event never counts toward its own signal. */
  lemma SelfSequenceNeverNeedsTwo(rules: Rules, cap: int, inputs: seq<Input>, event: Event, sections: seq<Section>,
                                  i: nat)
    requires AllWellFormed(rules, inputs) && WellFormed(rules, Arrived(event, sections))
    requires i < |rules.correlations| && Applies(rules.correlations[i], event)
    requires rules.correlations[i].sequence[0] == rules.correlations[i].sequence[1]
    ensures |Found(rules, cap, inputs, event, sections, i)| <= 1
    ensures rules.correlations[i].minFirstCount >= 2 ==> !Fires(rules, cap, inputs, event, sections, i)
  {
    hide Found;
    FoundBesideSelfSequence(rules, cap, inputs, event, sections, i, i);
  }

  // ---------------------------------------------------------------------------------------------------------
  // Every signal is paid for
  // ---------------------------------------------------------------------------------------------------------

  /** A correlation fires exactly when its take, at its place in the window's operations, fires. */
  lemma FiresAtItsTake(rules: Rules, cap: int, inputs: seq<Input>, event: Event, sections: seq<Section>, i: nat)
    requires AllWellFormed(rules, inputs) && WellFormed(rules, Arrived(event, sections))
    requires i < |rules.correlations| && Applies(rules.correlations[i], event)
    ensures var c := rules.correlations[i];
            var ops := OpsBefore(rules, c.sequence[0], inputs, event, sections, i);
            var take := TakeOp(c, event, sections[i].now);
            && TakeOps(rules, c.sequence[0], event, sections, i + 1)
               == TakeOps(rules, c.sequence[0], event, sections, i)
                  + PruneOps(c.sequence[0], sections[i].prunes) + [take]
            && (Fires(rules, cap, inputs, event, sections, i) <==> FiresAt(cap, ops + [take], |ops|))
  {
    var ops := OpsBefore(rules, rules.correlations[i].sequence[0], inputs, event, sections, i);
    var take := TakeOp(rules.correlations[i], event, sections[i].now);
    assert (ops + [take])[..|ops|] == ops;
  }

  /** How many events of type f arrived. */
  ghost function Arrivals(f: string, inputs: seq<Input>): nat {
    if inputs == [] then 0
    else
      var n := |inputs| - 1;
      Arrivals(f, inputs[..n]) + if inputs[n].Arrived? && inputs[n].event.eventType == f then 1 else 0
  }

  lemma {:induction false} AddCountAppend(a: seq<Op>, b: seq<Op>)
    ensures AddCount(a + b) == AddCount(a) + AddCount(b)
    ensures NoAdds(b) ==> AddCount(b) == 0
  {
    if b == [] {
      assert a + b == a;
    } else {
      var n := |b| - 1;
      AddCountAppend(a, b[..n]);
      assert (a + b)[..|a + b| - 1] == a + b[..n];
    }
  }

  lemma InputAdds(rules: Rules, f: string, input: Input)
    requires WellFormed(rules, input)
    ensures AddCount(InputOps(rules, f, input)) == if input.Arrived? && input.event.eventType == f then 1 else 0
  {
    match input
    case Idle(section) =>
      PruneOpsArePrunes(f, section.prunes);
      AddCountAppend([], InputOps(rules, f, input));
    case Arrived(event, sections) =>
      var k := |rules.correlations|;
      var rest := TakeOps(rules, f, event, sections, k) + PruneOps(f, sections[k].prunes);
      TakeOpsAddNothing(rules, f, event, sections, k);
      PruneOpsArePrunes(f, sections[k].prunes);
      AddCountAppend([], rest);
      AddCountAppend(rest, AddOps(rules, f, event, sections[k].now));
  }

  lemma {:induction false} RunAdds(rules: Rules, f: string, inputs: seq<Input>)
    requires AllWellFormed(rules, inputs)
    ensures AddCount(RunOps(rules, f, inputs)) == Arrivals(f, inputs)
  {
    if inputs != [] {
      var n := |inputs| - 1;
      RunAdds(rules, f, inputs[..n]);
      InputAdds(rules, f, inputs[n]);
      AddCountAppend(RunOps(rules, f, inputs[..n]), InputOps(rules, f, inputs[n]));
    }
  }

  /** The thresholds of the first i correlations that fire on the event and take from the window of f, added up. */
  ghost function SpentOnEvent(rules: Rules, cap: int, f: string, inputs: seq<Input>, event: Event,
                              sections: seq<Section>, i: nat): nat
    requires AllWellFormed(rules, inputs) && WellFormed(rules, Arrived(event, sections))
    requires i <= |rules.correlations|
  {
    if i == 0 then 0
    else
      var c := rules.correlations[i - 1];
      SpentOnEvent(rules, cap, f, inputs, event, sections, i - 1)
      + if Fires(rules, cap, inputs, event, sections, i - 1) && c.sequence[0] == f then Need(c.minFirstCount) else 0
  }

  /** The thresholds of all signals fired in the run from first events of type f, added up. */
  ghost function SpentOnRun(rules: Rules, cap: int, f: string, inputs: seq<Input>): nat
    requires AllWellFormed(rules, inputs)
  {
    if inputs == [] then 0
    else
      var n := |inputs| - 1;
      SpentOnRun(rules, cap, f, inputs[..n]) + SpentOnInput(rules, cap, f, inputs[..n], inputs[n])
  }

  ghost function SpentOnInput(rules: Rules, cap: int, f: string, inputs: seq<Input>, input: Input): nat
    requires AllWellFormed(rules, inputs) && WellFormed(rules, input)
  {
    match input
    case Idle(_) => 0
    case Arrived(event, sections) => SpentOnEvent(rules, cap, f, inputs, event, sections, |rules.correlations|)
  }

  lemma SpentSnoc(cap: int, ops: seq<Op>, op: Op)
    ensures Spent(cap, ops + [op])
            == Spent(cap, ops) + if FiresAt(cap, ops + [op], |ops|) then Need(op.minFirstCount) else 0
  {
    assert (ops + [op])[..|ops|] == ops;
  }

  /** Operations other than takes spend nothing. */
  lemma {:induction false} OnlyTakesSpend(cap: int, ops: seq<Op>, more: seq<Op>)
    requires forall op :: op in more ==> !op.Take?
    ensures Spent(cap, ops + more) == Spent(cap, ops)
  {
    if more == [] {
      assert ops + more == ops;
    } else {
      var init, op := more[..|more| - 1], more[|more| - 1];
      OnlyTakesSpend(cap, ops, init);
      SpentSnoc(cap, ops + init, op);
      assert ops + more == ops + init + [op];
    }
  }

  /** What the takes of an event spend is what the correlations that fire on it need. */
  lemma {:induction false} TakesSpendThresholds(rules: Rules, cap: int, f: string, inputs: seq<Input>, event: Event,
                                                sections: seq<Section>, i: nat)
    requires AllWellFormed(rules, inputs) && WellFormed(rules, Arrived(event, sections))
    requires i <= |rules.correlations|
    ensures Spent(cap, RunOps(rules, f, inputs) + TakeOps(rules, f, event, sections, i))
            == Spent(cap, RunOps(rules, f, inputs)) + SpentOnEvent(rules, cap, f, inputs, event, sections, i)
  {
    hide Spent, RunOps, Fires, FiresAt, PruneOps;
    var run := RunOps(rules, f, inputs);
    if i == 0 {
      assert run + TakeOps(rules, f, event, sections, i) == run;
    } else {
      TakesSpendThresholds(rules, cap, f, inputs, event, sections, i - 1);
      TakeSpendsThreshold(rules, cap, f, inputs, event, sections, i - 1);
    }
  }

  lemma TakeSpendsThreshold(rules: Rules, cap: int, f: string, inputs: seq<Input>, event: Event,
                            sections: seq<Section>, i: nat)
    requires AllWellFormed(rules, inputs) && WellFormed(rules, Arrived(event, sections))
    requires i < |rules.correlations|
    ensures var c := rules.correlations[i];
            Spent(cap, RunOps(rules, f, inputs) + TakeOps(rules, f, event, sections, i + 1))
            == Spent(cap, RunOps(rules, f, inputs) + TakeOps(rules, f, event, sections, i))
               + if Fires(rules, cap, inputs, event, sections, i) && c.sequence[0] == f
                 then Need(c.minFirstCount) else 0
  {
    hide Spent, RunOps, FiresAt, PruneOps, After, Found;
    var c := rules.correlations[i];
    var before := RunOps(rules, f, inputs) + TakeOps(rules, f, event, sections, i);
    var pruned := PruneOps(f, sections[i].prunes);
    var take := TakeIn(c, f, event, sections[i].now);
    PruneOpsArePrunes(f, sections[i].prunes);
    OnlyTakesSpend(cap, before, pruned);
    assert RunOps(rules, f, inputs) + TakeOps(rules, f, event, sections, i + 1) == before + pruned + take;
    if take == [] {
      assert before + pruned + take == before + pruned;
    } else {
      FiresAtItsTake(rules, cap, inputs, event, sections, i);
      SpentSnoc(cap, before + pruned, take[0]);
      assert OpsBefore(rules, f, inputs, event, sections, i) == before + pruned;
      assert take == [TakeOp(c, event, sections[i].now)];
    }
  }

  lemma InputSpends(rules: Rules, cap: int, f: string, inputs: seq<Input>, input: Input)
    requires AllWellFormed(rules, inputs) && WellFormed(rules, input)
    ensures Spent(cap, RunOps(rules, f, inputs) + InputOps(rules, f, input))
            == Spent(cap, RunOps(rules, f, inputs)) + SpentOnInput(rules, cap, f, inputs, input)
  {
    hide Spent, RunOps, TakeOps, PruneOps, SpentOnEvent;
    var run := RunOps(rules, f, inputs);
    match input
    case Idle(section) =>
      PruneOpsArePrunes(f, section.prunes);
      OnlyTakesSpend(cap, run, PruneOps(f, section.prunes));
    case Arrived(event, sections) =>
      var n := |rules.correlations|;
      var takes := TakeOps(rules, f, event, sections, n);
      var rest := PruneOps(f, sections[n].prunes) + AddOps(rules, f, event, sections[n].now);
      TakesSpendThresholds(rules, cap, f, inputs, event, sections, n);
      PruneOpsArePrunes(f, sections[n].prunes);
      OnlyTakesSpend(cap, run + takes, rest);
      assert run + InputOps(rules, f, input) == run + takes + rest;
  }

  /** What a window's takes spend over a run is what the signals fired from it need. */
  lemma {:induction false} RunSpendsThresholds(rules: Rules, cap: int, f: string, inputs: seq<Input>)
    requires AllWellFormed(rules, inputs)
    ensures SpentOnRun(rules, cap, f, inputs) == Spent(cap, RunOps(rules, f, inputs))
  {
    if inputs != [] {
      hide Spent, InputOps, SpentOnInput;
      var n := |inputs| - 1;
      RunSpendsThresholds(rules, cap, f, inputs[..n]);
      InputSpends(rules, cap, f, inputs[..n], inputs[n]);
    }
  }

  /** At-most-once use: over a whole run, the thresholds of the signals fired from first events of type f, and the
      entries still stored, never add up to more than the events of type f that arrived, whichever correlations
      share them. */
  lemma SignalsNeverExceedArrivals(rules: Rules, cap: int, f: string, inputs: seq<Input>)
    requires AllWellFormed(rules, inputs)
    ensures SpentOnRun(rules, cap, f, inputs) + |After(cap, RunOps(rules, f, inputs))| <= Arrivals(f, inputs)
  {
    hide Spent, RunOps, After;
    RunSpendsThresholds(rules, cap, f, inputs);
    RunAdds(rules, f, inputs);
    SignalsArePaidFor(cap, RunOps(rules, f, inputs));
  }
}
