/** What a list of correlations makes of a run of events, in terms of the operations each window sees.  Windows
    are independent of one another, so each type's window has its own list of operations. */
module Correlations {
  import opened Sequences
  import opened Events
  import opened Windows

  /** `window` is the outcome of parsing the configured duration. */
  datatype Correlation = Correlation(
    name: string,
    sequence: seq<string>,
    window: Option<int>,
    sameFields: seq<string>,
    signal: string,
    confidence: real,
    minFirstCount: int)

  datatype Rules = Rules(correlations: seq<Correlation>, defaultTtl: int)

  datatype Signal = Signal(
    signalType: string,
    sourceChain: string,
    destinationChain: Option<string>,
    token: string,
    amount: string,
    amountUSD: Option<string>,
    confidence: real,
    metadata: map<string, string>)

  function NewSignal(c: Correlation, event: Event): Signal {
    Signal(c.signal, event.chain, event.destChain, event.token, event.amount, event.amountUSD, c.confidence,
           map["correlation" := c.name])
  }

  /** A prune of one window by the background pruner. */
  datatype PruneAt = PruneAt(window: string, now: int)

  /** The prunes that ran since the previous critical section, then the clock reading in this one. */
  datatype Section = Section(prunes: seq<PruneAt>, now: int)

  /** An event is processed in one section per correlation and one for storing it; or only the pruner runs. */
  datatype Input =
    | Arrived(event: Event, sections: seq<Section>)
    | Idle(section: Section)

  predicate WellFormed(rules: Rules, input: Input) {
    input.Arrived? ==> |input.sections| == |rules.correlations| + 1
  }

  // ---------------------------------------------------------------------------------------------------------
  // Windows and their TTLs
  // ---------------------------------------------------------------------------------------------------------

  function Duration(c: Correlation, defaultTtl: int): int {
    match c.window
    case None => defaultTtl
    case Some(d) => d
  }

  /** Some correlation names the type, so it has a window. */
  predicate HasWindow(correlations: seq<Correlation>, f: string) {
    exists c :: c in correlations && f in c.sequence
  }

  /** The greatest duration recorded for the type, zero when none is positive. */
  function RecordedTtl(correlations: seq<Correlation>, defaultTtl: int, f: string): int {
    if correlations == [] then 0
    else
      var n := |correlations| - 1;
      var soFar := RecordedTtl(correlations[..n], defaultTtl, f);
      var d := Duration(correlations[n], defaultTtl);
      if f in correlations[n].sequence && d > soFar then d else soFar
  }

  function TtlOf(rules: Rules, f: string): int {
    var recorded := RecordedTtl(rules.correlations, rules.defaultTtl, f);
    if recorded == 0 then rules.defaultTtl else recorded
  }

  /** The durations, parsed or else the default, that the correlations naming the type give it. */
  ghost function DurationsOf(rules: Rules, f: string): set<int> {
    set c | c in rules.correlations && f in c.sequence :: if c.window.Some? then c.window.value else rules.defaultTtl
  }

  ghost function Durations(correlations: seq<Correlation>, defaultTtl: int, f: string): set<int> {
    set c | c in correlations && f in c.sequence :: Duration(c, defaultTtl)
  }

  lemma {:induction false} RecordedTtlIsGreatest(correlations: seq<Correlation>, defaultTtl: int, f: string)
    ensures var ds := Durations(correlations, defaultTtl, f);
            var t := RecordedTtl(correlations, defaultTtl, f);
            t >= 0 && (t > 0 ==> t in ds) && forall d :: d in ds ==> d <= t
  {
    if correlations != [] {
      var n := |correlations| - 1;
      RecordedTtlIsGreatest(correlations[..n], defaultTtl, f);
      var ds := Durations(correlations, defaultTtl, f);
      var fewer := Durations(correlations[..n], defaultTtl, f);
      forall c | c in correlations && f in c.sequence
        ensures c == correlations[n] || Duration(c, defaultTtl) in fewer
      {
        assert c == correlations[n] || c in correlations[..n];
      }
      assert fewer <= ds;
    }
  }

  /** A type's window keeps events for the longest positive duration of the correlations that name the type,
      and for the default when there is none. */
  lemma TtlIsGreatestDuration(rules: Rules, f: string)
    ensures var ds := DurationsOf(rules, f);
            if exists d :: d in ds && d > 0
            then TtlOf(rules, f) in ds && forall d :: d in ds ==> d <= TtlOf(rules, f)
            else TtlOf(rules, f) == rules.defaultTtl
  {
    RecordedTtlIsGreatest(rules.correlations, rules.defaultTtl, f);
    assert DurationsOf(rules, f) == Durations(rules.correlations, rules.defaultTtl, f);
  }

  // ---------------------------------------------------------------------------------------------------------
  // The operations a window sees
  // ---------------------------------------------------------------------------------------------------------

  /** The event completes the correlation's sequence. */
  predicate Applies(c: Correlation, event: Event) {
    |c.sequence| == 2 && c.sequence[1] == event.eventType
  }

  function TakeOp(c: Correlation, event: Event, now: int): Op {
    Take(c.sameFields, event, c.minFirstCount, now)
  }

  function PruneOps(f: string, prunes: seq<PruneAt>): seq<Op> {
    if prunes == [] then []
    else
      var n := |prunes| - 1;
      PruneOps(f, prunes[..n]) + if prunes[n].window == f then [Prune(prunes[n].now)] else []
  }

  lemma NoPrunes()
    ensures forall f :: PruneOps(f, []) == []
  {
  }

  lemma PruneOpsSnoc(prunes: seq<PruneAt>, p: PruneAt)
    ensures forall f :: PruneOps(f, prunes + [p]) == PruneOps(f, prunes) + if p.window == f then [Prune(p.now)] else []
  {
    assert (prunes + [p])[..|prunes|] == prunes;
  }

  /** What the i-th correlation does to the window of f. */
  function TakeIn(c: Correlation, f: string, event: Event, now: int): seq<Op> {
    if Applies(c, event) && c.sequence[0] == f then [TakeOp(c, event, now)] else []
  }

  /** The operations on the window of f in the sections of the first i correlations. */
  function TakeOps(rules: Rules, f: string, event: Event, sections: seq<Section>, i: nat): seq<Op>
    requires i <= |rules.correlations| <= |sections|
  {
    if i == 0 then []
    else
      TakeOps(rules, f, event, sections, i - 1)
      + PruneOps(f, sections[i - 1].prunes) + TakeIn(rules.correlations[i - 1], f, event, sections[i - 1].now)
  }

  /** Storing the event. */
  function AddOps(rules: Rules, f: string, event: Event, now: int): seq<Op> {
    if event.eventType == f then [Add(event, TtlOf(rules, f), now)] else []
  }

  function InputOps(rules: Rules, f: string, input: Input): seq<Op>
    requires WellFormed(rules, input)
  {
    match input
    case Idle(section) => PruneOps(f, section.prunes)
    case Arrived(event, sections) =>
      var n := |rules.correlations|;
      TakeOps(rules, f, event, sections, n) + PruneOps(f, sections[n].prunes)
      + AddOps(rules, f, event, sections[n].now)
  }

  ghost predicate AllWellFormed(rules: Rules, inputs: seq<Input>) {
    forall input :: input in inputs ==> WellFormed(rules, input)
  }

  /** Everything the window of f sees in a run. */
  ghost function RunOps(rules: Rules, f: string, inputs: seq<Input>): seq<Op>
    requires AllWellFormed(rules, inputs)
  {
    if inputs == [] then []
    else
      var n := |inputs| - 1;
      RunOps(rules, f, inputs[..n]) + InputOps(rules, f, inputs[n])
  }

  lemma RunOpsSnoc(rules: Rules, inputs: seq<Input>, input: Input)
    requires AllWellFormed(rules, inputs) && WellFormed(rules, input)
    ensures AllWellFormed(rules, inputs + [input])
    ensures forall f :: RunOps(rules, f, inputs + [input]) == RunOps(rules, f, inputs) + InputOps(rules, f, input)
  {
    assert (inputs + [input])[..|inputs|] == inputs;
  }

  /** Everything the window of f has seen when the section of correlation i takes from it. */
  ghost function OpsBefore(rules: Rules, f: string, inputs: seq<Input>, event: Event, sections: seq<Section>, i: nat)
    : seq<Op>
    requires AllWellFormed(rules, inputs) && WellFormed(rules, Arrived(event, sections))
    requires i < |rules.correlations|
  {
    RunOps(rules, f, inputs) + TakeOps(rules, f, event, sections, i) + PruneOps(f, sections[i].prunes)
  }

  /** What correlation i finds when the event arrives after `inputs`. */
  ghost function Found(rules: Rules, cap: int, inputs: seq<Input>, event: Event, sections: seq<Section>, i: nat)
    : seq<Entry>
    requires AllWellFormed(rules, inputs) && WellFormed(rules, Arrived(event, sections))
    requires i < |rules.correlations| && Applies(rules.correlations[i], event)
  {
    var c := rules.correlations[i];
    Result(After(cap, OpsBefore(rules, c.sequence[0], inputs, event, sections, i)), TakeOp(c, event, sections[i].now))
  }

  /** Correlation i emits a signal when the event arrives after `inputs`. */
  ghost predicate Fires(rules: Rules, cap: int, inputs: seq<Input>, event: Event, sections: seq<Section>, i: nat)
    requires AllWellFormed(rules, inputs) && WellFormed(rules, Arrived(event, sections))
    requires i < |rules.correlations|
  {
    var c := rules.correlations[i];
    Applies(c, event) && |Found(rules, cap, inputs, event, sections, i)| >= Need(c.minFirstCount)
  }

  /** The signals of the first i correlations, in their order. */
  ghost function Signals(rules: Rules, cap: int, inputs: seq<Input>, event: Event, sections: seq<Section>, i: nat)
    : seq<Signal>
    requires AllWellFormed(rules, inputs) && WellFormed(rules, Arrived(event, sections))
    requires i <= |rules.correlations|
  {
    if i == 0 then []
    else
      Signals(rules, cap, inputs, event, sections, i - 1)
      + if Fires(rules, cap, inputs, event, sections, i - 1)
        then [NewSignal(rules.correlations[i - 1], event)] else []
  }

  /** The signal says, field by field, what the event was and which correlation saw it. */
  ghost predicate Carries(s: Signal, c: Correlation, event: Event) {
    && s.signalType == c.signal && s.confidence == c.confidence && s.metadata == map["correlation" := c.name]
    && s.sourceChain == event.chain && s.destinationChain == event.destChain
    && s.token == event.token && s.amount == event.amount && s.amountUSD == event.amountUSD
  }

  /** The list names exactly the positions below i of the correlations that fire, in ascending order. */
  ghost predicate FiringBelow(rules: Rules, cap: int, inputs: seq<Input>, event: Event, sections: seq<Section>, i: nat,
                              fired: seq<nat>)
    requires AllWellFormed(rules, inputs) && WellFormed(rules, Arrived(event, sections))
    requires i <= |rules.correlations|
  {
    && (forall a, b :: 0 <= a < b < |fired| ==> fired[a] < fired[b])
    && (forall a :: 0 <= a < |fired| ==> fired[a] < i && Fires(rules, cap, inputs, event, sections, fired[a]))
    && (forall k :: 0 <= k < i && Fires(rules, cap, inputs, event, sections, k) ==> k in fired)
  }

  lemma SignalCarries(c: Correlation, event: Event)
    ensures Carries(NewSignal(c, event), c, event)
  {
  }

  /** There is one signal for each correlation that fires, in the order of the list, and it carries the event's and
      that correlation's fields. */
  lemma {:induction false} SignalContents(rules: Rules, cap: int, inputs: seq<Input>, event: Event,
                                          sections: seq<Section>, i: nat) returns (fired: seq<nat>)
    requires AllWellFormed(rules, inputs) && WellFormed(rules, Arrived(event, sections))
    requires i <= |rules.correlations|
    ensures FiringBelow(rules, cap, inputs, event, sections, i, fired)
    ensures var signals := Signals(rules, cap, inputs, event, sections, i);
            && |signals| == |fired|
            && forall j :: 0 <= j < |fired| ==> Carries(signals[j], rules.correlations[fired[j]], event)
  {
    hide Fires, Carries, NewSignal;
    fired := [];
    if i != 0 {
      var before := SignalContents(rules, cap, inputs, event, sections, i - 1);
      fired := before;
      if Fires(rules, cap, inputs, event, sections, i - 1) {
        fired := before + [i - 1];
        SignalCarries(rules.correlations[i - 1], event);
        OneMoreFires(rules, cap, inputs, event, sections, i - 1, before);
      }
    }
  }

  lemma OneMoreFires(rules: Rules, cap: int, inputs: seq<Input>, event: Event, sections: seq<Section>, i: nat,
                     fired: seq<nat>)
    requires AllWellFormed(rules, inputs) && WellFormed(rules, Arrived(event, sections))
    requires i < |rules.correlations| && Fires(rules, cap, inputs, event, sections, i)
    requires FiringBelow(rules, cap, inputs, event, sections, i, fired)
    ensures FiringBelow(rules, cap, inputs, event, sections, i + 1, fired + [i])
  {
    hide Fires;
    assert forall k :: k in fired + [i] <==> k in fired || k == i;
  }

  // ---------------------------------------------------------------------------------------------------------
  // Raising the cap
  // ---------------------------------------------------------------------------------------------------------

  /** Raising the cap never loses a signal: whatever fires in a run under the smaller cap also fires in the same
      run under the larger one. */
  lemma RaisingTheCapKeepsSignals(rules: Rules, low: int, high: int, inputs: seq<Input>, event: Event,
                                  sections: seq<Section>, i: nat)
    requires AllWellFormed(rules, inputs) && WellFormed(rules, Arrived(event, sections))
    requires i < |rules.correlations| && CapAtLeast(high, low)
    ensures Fires(rules, low, inputs, event, sections, i) ==> Fires(rules, high, inputs, event, sections, i)
  {
    var c := rules.correlations[i];
    if Applies(c, event) {
      var ops := OpsBefore(rules, c.sequence[0], inputs, event, sections, i);
      RaisingTheCap(low, high, [], [], ops);
      assert Suffix(Result(After(low, ops), TakeOp(c, event, sections[i].now)),
                    Result(After(high, ops), TakeOp(c, event, sections[i].now)));
    }
  }

  // ---------------------------------------------------------------------------------------------------------
  // The clock of a run
  // ---------------------------------------------------------------------------------------------------------

  /** The section runs no earlier than `since`, its prunes in order before its reading. */
  ghost predicate SectionIn(since: int, s: Section) {
    && since <= s.now
    && (forall i :: 0 <= i < |s.prunes| ==> since <= s.prunes[i].now <= s.now)
    && (forall i, j :: 0 <= i < j < |s.prunes| ==> s.prunes[i].now <= s.prunes[j].now)
  }

  /** The clock when the first i sections are over. */
  ghost function ClockIn(since: int, sections: seq<Section>, i: nat): int
    requires i <= |sections|
  {
    if i == 0 then since else sections[i - 1].now
  }

  ghost predicate SectionsIn(since: int, sections: seq<Section>) {
    forall i {:trigger ClockIn(since, sections, i)} ::
      0 <= i < |sections| ==> SectionIn(ClockIn(since, sections, i), sections[i])
  }

  /** The clock after the last input. */
  ghost function Clock(start: int, inputs: seq<Input>): int {
    if inputs == [] then start else ClockAfter(start, inputs[|inputs| - 1])
  }

  ghost function ClockAfter(start: int, input: Input): int {
    match input
    case Idle(section) => section.now
    case Arrived(_, sections) => ClockIn(start, sections, |sections|)
  }

  ghost predicate InputIn(since: int, input: Input) {
    match input
    case Idle(section) => SectionIn(since, section)
    case Arrived(_, sections) => SectionsIn(since, sections)
  }

  /** The clock never goes backwards during the run. */
  ghost predicate InOrder(start: int, inputs: seq<Input>) {
    forall n :: 0 <= n < |inputs| ==> InputIn(Clock(start, inputs[..n]), inputs[n])
  }

  ghost predicate TickAfterPrunes(s: Section) {
    forall i :: 0 <= i < |s.prunes| ==> s.prunes[i].now < s.now
  }

  /** The clock moves on between a prune and the section that follows it. */
  ghost predicate TicksIn(input: Input) {
    match input
    case Idle(section) => TickAfterPrunes(section)
    case Arrived(_, sections) => forall s :: s in sections ==> TickAfterPrunes(s)
  }

  ghost predicate TicksAfterPrunes(inputs: seq<Input>) {
    forall input :: input in inputs ==> TicksIn(input)
  }

  /** The operations are in order and none is later than `last`.  In a strict run, takes come strictly after the
      prunes before them, and the prunes so far are all earlier than `bound`. */
  ghost predicate Timed(strict: bool, ops: seq<Op>, last: int, bound: int) {
    && Monotone(ops)
    && (forall i :: 0 <= i < |ops| ==> ops[i].now <= last)
    && (strict ==> TakesAfterPrunes(ops) && forall i :: 0 <= i < |ops| && ops[i].Prune? ==> ops[i].now < bound)
  }

  lemma TimedSnoc(strict: bool, ops: seq<Op>, last: int, bound: int, op: Op)
    requires Timed(strict, ops, last, bound) && last <= op.now
    requires strict ==> (op.Prune? ==> op.now < bound) && (op.Take? ==> bound <= op.now)
    ensures Timed(strict, ops + [op], op.now, bound)
  {
  }

  lemma {:induction false} PrunesTimed(strict: bool, f: string, ops: seq<Op>, since: int, s: Section, k: nat)
    requires Timed(strict, ops, since, since) && SectionIn(since, s) && (strict ==> TickAfterPrunes(s))
    requires k <= |s.prunes|
    ensures Timed(strict, ops + PruneOps(f, s.prunes[..k]), if k == 0 then since else s.prunes[k - 1].now, s.now)
  {
    hide PruneOps;
    NoPrunes();
    if k == 0 {
      assert ops + PruneOps(f, s.prunes[..k]) == ops;
    } else {
      PrunesTimed(strict, f, ops, since, s, k - 1);
      PruneOpsSnoc(s.prunes[..k - 1], s.prunes[k - 1]);
      assert s.prunes[..k] == s.prunes[..k - 1] + [s.prunes[k - 1]];
      var before, op := ops + PruneOps(f, s.prunes[..k - 1]), Prune(s.prunes[k - 1].now);
      if s.prunes[k - 1].window == f {
        TimedSnoc(strict, before, if k == 1 then since else s.prunes[k - 2].now, s.now, op);
        assert ops + PruneOps(f, s.prunes[..k]) == before + [op];
      } else {
        assert ops + PruneOps(f, s.prunes[..k]) == before;
      }
    }
  }

  /** One section: its prunes, then at most one operation at its reading. */
  lemma SectionTimed(strict: bool, f: string, ops: seq<Op>, since: int, s: Section, rest: seq<Op>)
    requires Timed(strict, ops, since, since) && SectionIn(since, s) && (strict ==> TickAfterPrunes(s))
    requires rest == [] || (|rest| == 1 && rest[0].now == s.now && !rest[0].Prune?)
    ensures Timed(strict, ops + PruneOps(f, s.prunes) + rest, s.now, s.now)
  {
    var k := |s.prunes|;
    PrunesTimed(strict, f, ops, since, s, k);
    assert s.prunes[..k] == s.prunes;
    var pruned := ops + PruneOps(f, s.prunes);
    if rest == [] {
      assert pruned + rest == pruned;
    } else {
      TimedSnoc(strict, pruned, if k == 0 then since else s.prunes[k - 1].now, s.now, rest[0]);
      assert rest == [rest[0]];
    }
  }

  lemma {:induction false} TakesTimed(strict: bool, rules: Rules, f: string, ops: seq<Op>, since: int, event: Event,
                                      sections: seq<Section>, i: nat)
    requires WellFormed(rules, Arrived(event, sections)) && i <= |rules.correlations|
    requires Timed(strict, ops, since, since) && SectionsIn(since, sections)
    requires strict ==> TicksIn(Arrived(event, sections))
    ensures var now := ClockIn(since, sections, i);
            Timed(strict, ops + TakeOps(rules, f, event, sections, i), now, now)
  {
    hide Timed, PruneOps, SectionIn, TickAfterPrunes;
    if i == 0 {
      assert ops + TakeOps(rules, f, event, sections, i) == ops;
    } else {
      TakesTimed(strict, rules, f, ops, since, event, sections, i - 1);
      var s := sections[i - 1];
      var before := ops + TakeOps(rules, f, event, sections, i - 1);
      var take := TakeIn(rules.correlations[i - 1], f, event, s.now);
      SectionTimed(strict, f, before, ClockIn(since, sections, i - 1), s, take);
      assert ops + TakeOps(rules, f, event, sections, i) == before + PruneOps(f, s.prunes) + take;
    }
  }

  lemma InputTimed(strict: bool, rules: Rules, f: string, ops: seq<Op>, since: int, input: Input)
    requires WellFormed(rules, input) && InputIn(since, input) && (strict ==> TicksIn(input))
    requires Timed(strict, ops, since, since)
    ensures var now := ClockAfter(since, input); Timed(strict, ops + InputOps(rules, f, input), now, now)
  {
    hide Timed, PruneOps, TakeOps, SectionIn, TickAfterPrunes, TtlOf;
    match input
    case Idle(section) =>
      SectionTimed(strict, f, ops, since, section, []);
      assert ops + PruneOps(f, section.prunes) + [] == ops + InputOps(rules, f, input);
    case Arrived(event, sections) =>
      var k := |rules.correlations|;
      TakesTimed(strict, rules, f, ops, since, event, sections, k);
      var add := AddOps(rules, f, event, sections[k].now);
      var taken := ops + TakeOps(rules, f, event, sections, k);
      SectionTimed(strict, f, taken, ClockIn(since, sections, k), sections[k], add);
      assert ops + InputOps(rules, f, input) == taken + PruneOps(f, sections[k].prunes) + add;
  }

  lemma InOrderPrefix(start: int, inputs: seq<Input>, n: nat)
    requires InOrder(start, inputs) && n <= |inputs|
    ensures InOrder(start, inputs[..n])
  {
    forall m | 0 <= m < n
      ensures inputs[..n][..m] == inputs[..m]
    {
    }
  }

  /** In a run whose clock never goes backwards, neither does the clock of any window. */
  lemma {:induction false} RunTimed(strict: bool, rules: Rules, f: string, start: int, inputs: seq<Input>)
    requires AllWellFormed(rules, inputs) && InOrder(start, inputs) && (strict ==> TicksAfterPrunes(inputs))
    ensures Timed(strict, RunOps(rules, f, inputs), Clock(start, inputs), Clock(start, inputs))
  {
    if inputs != [] {
      var n := |inputs| - 1;
      InOrderPrefix(start, inputs, n);
      RunTimed(strict, rules, f, start, inputs[..n]);
      InputTimed(strict, rules, f, RunOps(rules, f, inputs[..n]), Clock(start, inputs[..n]), inputs[n]);
    }
  }
}
