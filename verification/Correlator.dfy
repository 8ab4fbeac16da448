/** The correlator as the object the engine holds: one window object per event type, filled in by the constructor
    and updated in place by every event and by the background pruner. */
module Correlators {
  import opened Sequences
  import opened Events
  import opened Windows
  import opened Correlations
  import opened CorrelationProperties

  class Correlator {
    const rules: Rules
    const maxWindowSize: int
    const hasOnDrop: bool
    var windows: map<string, EventWindow>
    var windowTTLs: map<string, int>
    ghost var inputs: seq<Input>  // everything that happened since construction

    /** Distinct types have distinct windows, all with the configured cap and the one drop callback. */
    ghost predicate WindowsValid()
      reads this`windows, windows.Values
    {
      && (forall f, g :: f in windows && g in windows && f != g ==> windows[f] != windows[g])
      && (forall f :: f in windows ==> windows[f].Valid())
      && (forall f :: f in windows ==> windows[f].maxSize == maxWindowSize && windows[f].hasOnDrop == hasOnDrop)
    }

    /** Exactly the types that some sequence names have a window, with its TTL. */
    ghost predicate TypesValid()
      reads this`windows, this`windowTTLs
    {
      && (forall f :: f in windows <==> HasWindow(rules.correlations, f))
      && (forall f :: f in windows ==> Recorded(windowTTLs, f) == RecordedTtl(rules.correlations, rules.defaultTtl, f))
    }

    /** Each window has seen exactly what the inputs so far mean for it. */
    ghost predicate Valid()
      reads this, windows.Values
    {
      && WindowsValid()
      && TypesValid()
      && AllWellFormed(rules, inputs)
      && (forall f :: f in windows ==> windows[f].history == RunOps(rules, f, inputs))
    }

    constructor (rules: Rules, maxWindowSize: int, hasOnDrop: bool)
      ensures Valid() && fresh(windows.Values)
      ensures this.rules == rules && this.maxWindowSize == maxWindowSize && this.hasOnDrop == hasOnDrop && inputs == []
    {
      hide After, HasWindow, RecordedTtl, RunOps, Recorded, NewWindows;
      var ws: map<string, EventWindow> := map[];
      var ttls: map<string, int> := map[];
      var cs := rules.correlations;
      NoCorrelations(rules.defaultTtl);
      NoWindows(maxWindowSize, hasOnDrop);
      for i := 0 to |cs|
        invariant forall f :: f in ws <==> HasWindow(cs[..i], f)
        invariant NewWindows(ws, maxWindowSize, hasOnDrop) && fresh(ws.Values)
        invariant forall f :: Recorded(ttls, f) == RecordedTtl(cs[..i], rules.defaultTtl, f)
      {
        ws, ttls := AddTypes(cs[i], ws, ttls, rules.defaultTtl, maxWindowSize, hasOnDrop);
        HasWindowSnoc(cs[..i], cs[i]);
        RecordedTtlSnoc(cs[..i], cs[i], rules.defaultTtl);
        assert cs[..i + 1] == cs[..i] + [cs[i]];
      }
      assert cs[..|cs|] == cs;
      this.rules, this.maxWindowSize, this.hasOnDrop := rules, maxWindowSize, hasOnDrop;
      windows, windowTTLs, inputs := ws, ttls, [];
      NothingYet(rules);
      AreNewWindows(ws, maxWindowSize, hasOnDrop);
    }

    method PruneWindow(f: string, now: int)
      requires WindowsValid() && f in windows
      modifies windows[f]
      ensures WindowsValid()
      ensures windows[f].history == old(windows[f].history) + [Prune(now)]
      ensures forall g :: g in windows && g != f ==> windows[g].history == old(windows[g].history)
    {
      windows[f].Prune(now);
    }

    method TakeFromWindow(f: string, c: Correlation, event: Event, now: int) returns (matches: seq<Event>)
      requires WindowsValid() && f in windows
      modifies windows[f]
      ensures WindowsValid()
      ensures windows[f].history == old(windows[f].history) + [TakeOp(c, event, now)]
      ensures |matches| == |Result(After(maxWindowSize, old(windows[f].history)), TakeOp(c, event, now))|
      ensures forall g :: g in windows && g != f ==> windows[g].history == old(windows[g].history)
    {
      matches := windows[f].TakeMatchingEntries(c.sameFields, event, now, c.minFirstCount);
      EventsOfEach(Result(After(maxWindowSize, old(windows[f].history)), TakeOp(c, event, now)));
    }

    method AddToWindow(f: string, event: Event, ttl: int, now: int)
      requires WindowsValid() && f in windows
      modifies windows[f]
      ensures WindowsValid()
      ensures windows[f].history == old(windows[f].history) + [Add(event, ttl, now)]
      ensures forall g :: g in windows && g != f ==> windows[g].history == old(windows[g].history)
    {
      windows[f].Add(event, ttl, now);
    }

    /** The critical sections of the background pruner that the scheduler ran, in order. */
    method RunPrunes(prunes: seq<PruneAt>)
      requires WindowsValid()
      modifies windows.Values
      ensures WindowsValid()
      ensures forall f :: f in windows ==> windows[f].history == old(windows[f].history) + PruneOps(f, prunes)
    {
      hide After, PruneOps, WindowsValid;
      NoPrunes();
      for i := 0 to |prunes|
        invariant WindowsValid()
        invariant forall f :: f in windows ==> windows[f].history == old(windows[f].history) + PruneOps(f, prunes[..i])
      {
        label before:
        PruneOpsSnoc(prunes[..i], prunes[i]);
        assert prunes[..i + 1] == prunes[..i] + [prunes[i]];
        if prunes[i].window in windows {
          PruneWindow(prunes[i].window, prunes[i].now);
        }
        forall f | f in windows
          ensures windows[f].history == old(windows[f].history) + PruneOps(f, prunes[..i + 1])
        {
          assert old@before(windows[f].history) == old(windows[f].history) + PruneOps(f, prunes[..i]);
        }
      }
      assert prunes[..|prunes|] == prunes;
    }

    /** One tick of the pruner's timer, at some moment when no event is being processed: every window is pruned
        once, in an order that is not determined. */
    method PruneAll(now: map<string, int>, until: int) returns (ghost prunes: seq<PruneAt>)
      requires Valid() && now.Keys == windows.Keys
      modifies this`inputs, windows.Values
      ensures Valid() && inputs == old(inputs) + [Idle(Section(prunes, until))]
      ensures forall f :: f in windows ==> PruneOps(f, prunes) == [Prune(now[f])]
    {
      hide RunOps, InputOps, PruneOps, WindowsValid, TypesValid, AllWellFormed;
      var visits := SomeOrder(now);
      RunPrunes(visits);
      prunes := visits;
      RunOpsSnoc(rules, inputs, Idle(Section(prunes, until)));
      IdleOps(rules, Section(prunes, until));
      inputs := inputs + [Idle(Section(prunes, until))];
    }

    /** The body of the loop over correlations. */
    method Consider(c: Correlation, event: Event, section: Section) returns (fired: bool)
      requires WindowsValid()
      modifies windows.Values
      ensures WindowsValid()
      ensures forall f :: f in windows ==>
                windows[f].history
                == old(windows[f].history) + PruneOps(f, section.prunes) + TakeIn(c, f, event, section.now)
      ensures fired <==>
                && Applies(c, event) && c.sequence[0] in windows
                && var before := old(windows[c.sequence[0]].history) + PruneOps(c.sequence[0], section.prunes);
                   |Result(After(maxWindowSize, before), TakeOp(c, event, section.now))| >= Need(c.minFirstCount)
    {
      hide After, PruneOps, WindowsValid, Result;
      RunPrunes(section.prunes);
      fired := false;
      if |c.sequence| != 2 {
        return;
      }
      if c.sequence[1] == event.eventType {
        var firstType := c.sequence[0];
        if firstType !in windows {
          return;
        }
        var matches := TakeFromWindow(firstType, c, event, section.now);
        var minCount := c.minFirstCount;
        if minCount <= 0 {
          minCount := 1;
        }
        fired := |matches| >= minCount;
      }
    }

    /** Stores the event, if its type has a window. */
    method Store(event: Event, section: Section)
      requires WindowsValid() && TypesValid()
      modifies windows.Values
      ensures WindowsValid()
      ensures forall f :: f in windows ==>
                windows[f].history
                == old(windows[f].history) + PruneOps(f, section.prunes) + AddOps(rules, f, event, section.now)
    {
      hide After, PruneOps, WindowsValid, HasWindow, RecordedTtl;
      RunPrunes(section.prunes);
      if event.eventType in windows {
        var ttl := if event.eventType in windowTTLs then windowTTLs[event.eventType] else 0;
        if ttl == 0 {
          ttl := rules.defaultTtl;
        }
        AddToWindow(event.eventType, event, ttl, section.now);
      }
    }

    /** The loop over correlations. */
    method ConsiderAll(event: Event, sections: seq<Section>) returns (signals: seq<Signal>)
      requires Valid() && WellFormed(rules, Arrived(event, sections))
      modifies windows.Values
      ensures WindowsValid() && TypesValid()
      ensures var n := |rules.correlations|;
              && signals == Signals(rules, maxWindowSize, inputs, event, sections, n)
              && forall f :: f in windows ==>
                   windows[f].history == RunOps(rules, f, inputs) + TakeOps(rules, f, event, sections, n)
    {
      hide After, Result, RunOps, TakeOps, PruneOps, Signals, Fires, WindowsValid, TypesValid, TakeIn, Applies;
      signals := [];
      SectionsStart(rules, maxWindowSize, inputs, event, sections);
      for i := 0 to |rules.correlations|
        invariant WindowsValid() && TypesValid()
        invariant forall f :: f in windows ==>
                    windows[f].history == RunOps(rules, f, inputs) + TakeOps(rules, f, event, sections, i)
        invariant signals == Signals(rules, maxWindowSize, inputs, event, sections, i)
      {
        var c := rules.correlations[i];
        if Applies(c, event) {
          AppliesToWindow(event, i);
        }
        var fired := Consider(c, event, sections[i]);
        TakeOpsNext(rules, inputs, event, sections, i);
        SignalsNext(rules, maxWindowSize, inputs, event, sections, i, fired);
        if fired {
          signals := signals + [NewSignal(c, event)];
        }
      }
    }

    /** Processes one event.  `sections` gives the clock reading of each critical section and the background
        prunes that ran before it; `fired` lists the positions of the correlations that fired. */
    method Process(event: Event, sections: seq<Section>) returns (signals: seq<Signal>, ghost fired: seq<nat>)
      requires Valid() && WellFormed(rules, Arrived(event, sections))
      modifies this`inputs, windows.Values
      ensures Valid() && inputs == old(inputs) + [Arrived(event, sections)]
      ensures AllWellFormed(rules, old(inputs))
      ensures signals == Signals(rules, maxWindowSize, old(inputs), event, sections, |rules.correlations|)
      ensures FiringBelow(rules, maxWindowSize, old(inputs), event, sections, |rules.correlations|, fired)
      ensures |signals| == |fired|
      ensures forall j :: 0 <= j < |signals| ==>
                && fired[j] < |rules.correlations|
                && var c := rules.correlations[fired[j]];
                && signals[j].signalType == c.signal && signals[j].confidence == c.confidence
                && signals[j].metadata == map["correlation" := c.name]
      ensures forall s :: s in signals ==>
                && s.sourceChain == event.chain && s.destinationChain == event.destChain
                && s.token == event.token && s.amount == event.amount && s.amountUSD == event.amountUSD
    {
      hide After, RunOps, TakeOps, InputOps, PruneOps, AddOps, Signals, WindowsValid, TypesValid, AllWellFormed, Fires;
      fired := SignalContents(rules, maxWindowSize, inputs, event, sections, |rules.correlations|);
      signals := ConsiderAll(event, sections);
      Store(event, sections[|rules.correlations|]);
      InputOpsParts(rules, inputs, event, sections);
      RunOpsSnoc(rules, inputs, Arrived(event, sections));
      inputs := inputs + [Arrived(event, sections)];
    }

    /** A correlation that applies has a window to take from. */
    lemma AppliesToWindow(event: Event, i: nat)
      requires TypesValid() && i < |rules.correlations| && Applies(rules.correlations[i], event)
      ensures rules.correlations[i].sequence[0] in windows
    {
      assert HasWindow(rules.correlations, rules.correlations[i].sequence[0]);
    }

    /** The number of stored entries, with the order in which the windows were visited, each once. */
    method OpenEntries() returns (total: nat, ghost order: seq<string>)
      requires WindowsValid()
      ensures |order| == |windows| && forall f :: f in order <==> f in windows
      ensures total == TotalSize(windows, order)
      ensures maxWindowSize > 0 ==> total <= |windows| * maxWindowSize
    {
      hide AfterFrom, After;
      var left := windows.Keys;
      total, order := 0, [];
      while left != {}
        invariant left <= windows.Keys
        invariant |order| == |windows| - |left| && forall f :: f in order <==> f in windows && f !in left
        invariant total == TotalSize(windows, order)
        decreases left
      {
        var f :| f in left;
        var size := windows[f].Size();
        TotalSizeSnoc(windows, order, f);
        total, order := total + size, order + [f];
        left := left - {f};
      }
      if maxWindowSize > 0 {
        TotalSizeWithinCaps(order);
      }
    }

    /** What the windows reported to the drop callback they share adds up to everything the cap ever dropped from
        them in the run, or to nothing when there is no callback. */
    lemma {:induction false} ReportedIsDropped(order: seq<string>)
      requires Valid() && forall f :: f in order ==> f in windows
      ensures TotalReported(windows, order)
              == if hasOnDrop then TotalDropped(rules, maxWindowSize, inputs, order) else 0
    {
      hide AfterFrom, RunOps, HasWindow, RecordedTtl, Dropped;
      if order != [] {
        var init, f := order[..|order| - 1], order[|order| - 1];
        assert order == init + [f];
        ReportedIsDropped(init);
        TotalReportedSnoc(windows, init, f);
        TotalDroppedSnoc(rules, maxWindowSize, inputs, init, f);
      }
    }

    lemma {:induction false} TotalSizeWithinCaps(order: seq<string>)
      requires WindowsValid() && maxWindowSize > 0 && forall f :: f in order ==> f in windows
      ensures TotalSize(windows, order) <= |order| * maxWindowSize
    {
      hide After;
      if order != [] {
        var n := |order| - 1;
        TotalSizeWithinCaps(order[..n]);
        SizeWithinCap(maxWindowSize, windows[order[n]].history);
      }
    }
  }

  /** The loop over one correlation's sequence: windows and TTLs for the types it names. */
  method AddTypes(c: Correlation, ws: map<string, EventWindow>, ttls: map<string, int>, defaultTtl: int,
                  maxWindowSize: int, hasOnDrop: bool)
    returns (ws': map<string, EventWindow>, ttls': map<string, int>)
    requires NewWindows(ws, maxWindowSize, hasOnDrop)
    ensures forall f :: f in ws' <==> f in ws || f in c.sequence
    ensures NewWindows(ws', maxWindowSize, hasOnDrop) && fresh(ws'.Values - ws.Values)
    ensures forall f :: Recorded(ttls', f) ==
              if f in c.sequence && Duration(c, defaultTtl) > Recorded(ttls, f) then Duration(c, defaultTtl)
              else Recorded(ttls, f)
  {
    hide After, NewWindows;
    ws', ttls' := ws, ttls;
    var d := match c.window case None => defaultTtl case Some(parsed) => parsed;
    for j := 0 to |c.sequence|
      invariant forall f :: f in ws' <==> f in ws || f in c.sequence[..j]
      invariant NewWindows(ws', maxWindowSize, hasOnDrop) && fresh(ws'.Values - ws.Values)
      invariant forall f :: Recorded(ttls', f) ==
                  if f in c.sequence[..j] && d > Recorded(ttls, f) then d else Recorded(ttls, f)
    {
      var f := c.sequence[j];
      if f !in ws' {
        var w := new EventWindow(maxWindowSize, hasOnDrop);
        OneMoreWindow(ws', f, w, maxWindowSize, hasOnDrop);
        ws' := ws'[f := w];
      }
      if d > Recorded(ttls', f) {
        ttls' := ttls'[f := d];
      }
      assert c.sequence[..j + 1] == c.sequence[..j] + [f];
    }
    assert c.sequence[..|c.sequence|] == c.sequence;
  }

  lemma AreNewWindows(ws: map<string, EventWindow>, maxWindowSize: int, hasOnDrop: bool)
    requires NewWindows(ws, maxWindowSize, hasOnDrop)
    ensures forall f, g :: f in ws && g in ws && f != g ==> ws[f] != ws[g]
    ensures forall f :: f in ws ==> ws[f].Valid() && ws[f].history == []
    ensures forall f :: f in ws ==> ws[f].maxSize == maxWindowSize && ws[f].hasOnDrop == hasOnDrop
  {
  }

  lemma NoWindows(maxWindowSize: int, hasOnDrop: bool)
    ensures NewWindows(map[], maxWindowSize, hasOnDrop)
  {
  }

  lemma OneMoreWindow(ws: map<string, EventWindow>, f: string, w: EventWindow, maxWindowSize: int, hasOnDrop: bool)
    requires NewWindows(ws, maxWindowSize, hasOnDrop) && f !in ws && w !in ws.Values
    requires w.Valid() && w.history == [] && w.maxSize == maxWindowSize && w.hasOnDrop == hasOnDrop
    ensures NewWindows(ws[f := w], maxWindowSize, hasOnDrop)
  {
  }

  /** A range over a map visits each key once, in some order. */
  method SomeOrder(now: map<string, int>) returns (visits: seq<PruneAt>)
    ensures forall f :: PruneOps(f, visits) == if f in now then [Prune(now[f])] else []
  {
    hide PruneOps;
    var left := now.Keys;
    visits := [];
    NoPrunes();
    while left != {}
      invariant left <= now.Keys
      invariant forall f :: PruneOps(f, visits) == if f in now && f !in left then [Prune(now[f])] else []
      decreases left
    {
      var f :| f in left;
      PruneOpsSnoc(visits, PruneAt(f, now[f]));
      visits := visits + [PruneAt(f, now[f])];
      left := left - {f};
    }
  }

  /** Reading the TTL map: a missing type reads as zero. */
  function Recorded(ttls: map<string, int>, f: string): int {
    if f in ttls then ttls[f] else 0
  }

  ghost predicate NewWindows(ws: map<string, EventWindow>, maxWindowSize: int, hasOnDrop: bool)
    reads ws.Values
  {
    && (forall f, g :: f in ws && g in ws && f != g ==> ws[f] != ws[g])
    && (forall f :: f in ws ==> ws[f].Valid() && ws[f].history == [])
    && (forall f :: f in ws ==> ws[f].maxSize == maxWindowSize && ws[f].hasOnDrop == hasOnDrop)
  }

  ghost function TotalSize(ws: map<string, EventWindow>, order: seq<string>): nat
    requires forall f :: f in order ==> f in ws
    reads ws.Values
  {
    if order == [] then 0
    else TotalSize(ws, order[..|order| - 1]) + |ws[order[|order| - 1]].entries|
  }

  ghost function TotalReported(ws: map<string, EventWindow>, order: seq<string>): nat
    requires forall f :: f in order ==> f in ws
    reads ws.Values
  {
    if order == [] then 0
    else TotalReported(ws, order[..|order| - 1]) + ws[order[|order| - 1]].reported
  }

  /** The entries that the cap dropped from the windows of the types during the run. */
  ghost function TotalDropped(rules: Rules, cap: int, inputs: seq<Input>, order: seq<string>): nat
    requires AllWellFormed(rules, inputs)
  {
    if order == [] then 0
    else
      var n := |order| - 1;
      TotalDropped(rules, cap, inputs, order[..n]) + |Dropped(cap, RunOps(rules, order[n], inputs))|
  }

  lemma TotalReportedSnoc(ws: map<string, EventWindow>, order: seq<string>, f: string)
    requires f in ws && forall g :: g in order ==> g in ws
    ensures TotalReported(ws, []) == 0 && TotalReported(ws, order + [f]) == TotalReported(ws, order) + ws[f].reported
  {
    assert (order + [f])[..|order|] == order;
  }

  lemma TotalDroppedSnoc(rules: Rules, cap: int, inputs: seq<Input>, order: seq<string>, f: string)
    requires AllWellFormed(rules, inputs)
    ensures TotalDropped(rules, cap, inputs, []) == 0
    ensures TotalDropped(rules, cap, inputs, order + [f])
            == TotalDropped(rules, cap, inputs, order) + |Dropped(cap, RunOps(rules, f, inputs))|
  {
    hide RunOps, Dropped;
    assert (order + [f])[..|order|] == order;
  }

  lemma TotalSizeSnoc(ws: map<string, EventWindow>, order: seq<string>, f: string)
    requires f in ws && forall g :: g in order ==> g in ws
    ensures TotalSize(ws, order + [f]) == TotalSize(ws, order) + |ws[f].entries|
  {
    assert (order + [f])[..|order|] == order;
  }

  lemma NoCorrelations(defaultTtl: int)
    ensures forall f :: !HasWindow([], f) && RecordedTtl([], defaultTtl, f) == 0 && Recorded(map[], f) == 0
  {
  }

  lemma NothingYet(rules: Rules)
    ensures AllWellFormed(rules, [])
    ensures forall f :: RunOps(rules, f, []) == []
  {
  }

  lemma HasWindowSnoc(cs: seq<Correlation>, c: Correlation)
    ensures forall f :: HasWindow(cs + [c], f) <==> HasWindow(cs, f) || f in c.sequence
  {
    forall f
      ensures HasWindow(cs + [c], f) <==> HasWindow(cs, f) || f in c.sequence
    {
      if f in c.sequence {
        assert c in cs + [c];
      }
      if x :| x in cs && f in x.sequence {
        assert x in cs + [c];
      }
    }
  }

  lemma RecordedTtlSnoc(cs: seq<Correlation>, c: Correlation, defaultTtl: int)
    ensures forall f :: RecordedTtl(cs + [c], defaultTtl, f) ==
              var soFar := RecordedTtl(cs, defaultTtl, f);
              if f in c.sequence && Duration(c, defaultTtl) > soFar then Duration(c, defaultTtl) else soFar
  {
    assert (cs + [c])[..|cs|] == cs;
  }

  lemma IdleOps(rules: Rules, section: Section)
    ensures forall f :: InputOps(rules, f, Idle(section)) == PruneOps(f, section.prunes)
  {
  }

  lemma SectionsStart(rules: Rules, cap: int, inputs: seq<Input>, event: Event, sections: seq<Section>)
    requires AllWellFormed(rules, inputs) && WellFormed(rules, Arrived(event, sections))
    ensures Signals(rules, cap, inputs, event, sections, 0) == []
    ensures forall f :: RunOps(rules, f, inputs) + TakeOps(rules, f, event, sections, 0) == RunOps(rules, f, inputs)
  {
  }

  lemma SignalsNext(rules: Rules, cap: int, inputs: seq<Input>, event: Event, sections: seq<Section>, i: nat,
                    fired: bool)
    requires AllWellFormed(rules, inputs) && WellFormed(rules, Arrived(event, sections))
    requires i < |rules.correlations|
    requires var c := rules.correlations[i];
             fired <==> Applies(c, event) &&
                        var f := c.sequence[0];
                        var before := RunOps(rules, f, inputs) + TakeOps(rules, f, event, sections, i)
                                      + PruneOps(f, sections[i].prunes);
                        |Result(After(cap, before), TakeOp(c, event, sections[i].now))| >= Need(c.minFirstCount)
    ensures Signals(rules, cap, inputs, event, sections, i + 1)
            == Signals(rules, cap, inputs, event, sections, i)
               + if fired then [NewSignal(rules.correlations[i], event)] else []
  {
  }

  lemma TakeOpsNext(rules: Rules, inputs: seq<Input>, event: Event, sections: seq<Section>, i: nat)
    requires AllWellFormed(rules, inputs) && WellFormed(rules, Arrived(event, sections))
    requires i < |rules.correlations|
    ensures forall f ::
              RunOps(rules, f, inputs) + TakeOps(rules, f, event, sections, i + 1)
              == RunOps(rules, f, inputs) + TakeOps(rules, f, event, sections, i)
                 + PruneOps(f, sections[i].prunes) + TakeIn(rules.correlations[i], f, event, sections[i].now)
  {
  }

  lemma InputOpsParts(rules: Rules, inputs: seq<Input>, event: Event, sections: seq<Section>)
    requires AllWellFormed(rules, inputs) && WellFormed(rules, Arrived(event, sections))
    ensures var n := |rules.correlations|;
            forall f ::
              RunOps(rules, f, inputs) + InputOps(rules, f, Arrived(event, sections))
              == RunOps(rules, f, inputs) + TakeOps(rules, f, event, sections, n)
                 + PruneOps(f, sections[n].prunes) + AddOps(rules, f, event, sections[n].now)
  {
  }
}
