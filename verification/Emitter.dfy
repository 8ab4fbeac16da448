/** Fan-out of signals to subscribers that come and go.  One goroutine emits; each subscriber has a bounded queue
    that is never waited on, and its own goroutine that forwards from the queue. */
module Emitters {
  import opened Sequences

  datatype PbSignal = PbSignal(
    signalType: string,
    sourceChain: string,
    destinationChain: string,
    token: string,
    amount: string,
    confidence: real)

  datatype SignalFilter = SignalFilter(
    signalTypes: seq<string>,
    sourceChains: seq<string>,
    destinationChains: seq<string>,
    tokens: seq<string>,
    minConfidence: real)

  /** Each list that is not empty must have the signal's value, and the confidence must reach a positive minimum. */
  predicate MatchesFilter(f: SignalFilter, sig: PbSignal): (r: bool)
    ensures r <==>
              && (f.signalTypes == [] || sig.signalType in f.signalTypes)
              && (f.sourceChains == [] || sig.sourceChain in f.sourceChains)
              && (f.destinationChains == [] || sig.destinationChain in f.destinationChains)
              && (f.tokens == [] || sig.token in f.tokens)
              && (f.minConfidence <= 0.0 || f.minConfidence <= sig.confidence)
  {
    if |f.signalTypes| > 0 && sig.signalType !in f.signalTypes then false
    else if |f.sourceChains| > 0 && sig.sourceChain !in f.sourceChains then false
    else if |f.destinationChains| > 0 && sig.destinationChain !in f.destinationChains then false
    else if |f.tokens| > 0 && sig.token !in f.tokens then false
    else if f.minConfidence > 0.0 && sig.confidence < f.minConfidence then false
    else true
  }

  function Wanted(f: SignalFilter): PbSignal -> bool {
    sig => MatchesFilter(f, sig)
  }

  datatype Phase = Serving | Leaving | Gone

  /** A subscription, past or present.  `taken` is what its goroutine received from the queue and handed to the
      stream, in order; `since` and `until` delimit the part of the emission log it was registered for. */
  datatype Subscription = Subscription(
    filter: SignalFilter,
    queue: seq<PbSignal>,
    phase: Phase,
    taken: seq<PbSignal>,
    missed: nat,
    since: nat,
    until: nat)
  {
    function Accepted(): nat { |taken| + |queue| }
  }

  /** An emission in progress: the emitter holds the read lock and offers to listener number `next` next. */
  datatype Emission = Emission(sig: PbSignal, next: nat)

  /** `subs` holds every subscription ever made and `listeners` the registered ones, in registration order; `log`
      is every signal whose emission has begun. */
  datatype State = State(
    subs: seq<Subscription>,
    listeners: seq<nat>,
    emitting: Option<Emission>,
    log: seq<PbSignal>,
    emitted: nat,
    dropped: nat)

  datatype Step =
    | Subscribe(filter: SignalFilter)
    | BeginEmit(sig: PbSignal)
    | Offer(receiverWaits: bool)
    | EndEmit
    | Forward(id: nat, sendFails: bool)
    | Disconnect(id: nat)
    | Unsubscribe(id: nat)

  const START: State := State([], [], None, [], 0, 0)

  /** Registering and unregistering need the write lock, so they wait for an emission to end. */
  predicate Enabled(s: State, step: Step) {
    match step
    case Subscribe(_) => s.emitting.None?
    case BeginEmit(_) => s.emitting.None?
    case Offer(_) =>
      && s.emitting.Some? && s.emitting.value.next < |s.listeners|
      && s.listeners[s.emitting.value.next] < |s.subs|
    case EndEmit => s.emitting.Some? && s.emitting.value.next >= |s.listeners|
    case Forward(id, _) => id < |s.subs| && s.subs[id].phase.Serving? && s.subs[id].queue != []
    case Disconnect(id) => id < |s.subs| && s.subs[id].phase.Serving?
    case Unsubscribe(id) => s.emitting.None? && id < |s.subs| && s.subs[id].phase.Leaving?
  }

  /** A non-blocking send: into the queue when it has room, straight to the goroutine when the channel is
      unbuffered and the goroutine waits on it, and nowhere otherwise. */
  function Send(bufSize: nat, l: Subscription, sig: PbSignal, receiverWaits: bool): Subscription {
    if |l.queue| < bufSize then l.(queue := l.queue + [sig])
    else if bufSize == 0 && l.queue == [] && l.phase.Serving? && receiverWaits then l.(taken := l.taken + [sig])
    else l.(missed := l.missed + 1)
  }

  function OfferNext(bufSize: nat, s: State, receiverWaits: bool): State
    requires Enabled(s, Offer(receiverWaits))
  {
    var Emission(sig, next) := s.emitting.value;
    var id := s.listeners[next];
    var moved := s.(emitting := Some(Emission(sig, next + 1)));
    if !MatchesFilter(s.subs[id].filter, sig) then moved
    else
      var l := Send(bufSize, s.subs[id], sig, receiverWaits);
      if l.missed == s.subs[id].missed then moved.(subs := s.subs[id := l], emitted := s.emitted + 1)
      else moved.(subs := s.subs[id := l], dropped := s.dropped + 1)
  }

  function Without(listeners: seq<nat>, id: nat): seq<nat> {
    Filter(existing => existing != id, listeners)
  }

  function Effect(bufSize: nat, s: State, step: Step): State
    requires Enabled(s, step)
  {
    match step
    case Subscribe(filter) =>
      s.(subs := s.subs + [Subscription(filter, [], Serving, [], 0, |s.log|, 0)], listeners := s.listeners + [|s.subs|])
    case BeginEmit(sig) => s.(emitting := Some(Emission(sig, 0)), log := s.log + [sig])
    case Offer(receiverWaits) => OfferNext(bufSize, s, receiverWaits)
    case EndEmit => s.(emitting := None)
    case Forward(id, sendFails) =>
      var l := s.subs[id];
      s.(subs := s.subs[id := l.(queue := l.queue[1..], taken := l.taken + [l.queue[0]],
                                 phase := if sendFails then Leaving else Serving)])
    case Disconnect(id) => s.(subs := s.subs[id := s.subs[id].(phase := Leaving)])
    case Unsubscribe(id) =>
      s.(subs := s.subs[id := s.subs[id].(phase := Gone, until := |s.log|)], listeners := Without(s.listeners, id))
  }

  /** A step that is not enabled does not happen. */
  function Next(bufSize: nat, s: State, step: Step): State {
    if Enabled(s, step) then Effect(bufSize, s, step) else s
  }

  function RunFrom(bufSize: nat, s: State, steps: seq<Step>): State {
    if steps == [] then s
    else Next(bufSize, RunFrom(bufSize, s, steps[..|steps| - 1]), steps[|steps| - 1])
  }

  /** The state after any interleaving of steps. */
  function Run(bufSize: nat, steps: seq<Step>): State {
    RunFrom(bufSize, START, steps)
  }

  // ---------------------------------------------------------------------------------------------------------
  // Conservation
  // ---------------------------------------------------------------------------------------------------------

  /** How much of the log has been offered to the subscription. */
  ghost function Seen(s: State, id: nat): nat
    requires id < |s.subs|
  {
    if s.subs[id].phase.Gone? then s.subs[id].until
    else if s.emitting.Some? && s.emitting.value.next <= |s.listeners| && id !in s.listeners[..s.emitting.value.next]
            && |s.log| > 0 then |s.log| - 1
    else |s.log|
  }

  /** The signals emitted while the subscription was registered that match its filter, as far as they have been
      offered to it. */
  ghost function Offered(s: State, id: nat): seq<PbSignal>
    requires id < |s.subs|
  {
    var l := s.subs[id];
    if l.since <= Seen(s, id) <= |s.log| then Filter(Wanted(l.filter), s.log[l.since..Seen(s, id)]) else []
  }

  /** a can be had from b by leaving out elements. */
  ghost predicate Subsequence<T>(a: seq<T>, b: seq<T>) {
    a == [] || (b != [] && (Subsequence(a, b[..|b| - 1])
                            || (a[|a| - 1] == b[|b| - 1] && Subsequence(a[..|a| - 1], b[..|b| - 1]))))
  }

  lemma SubsequenceSnoc<T>(a: seq<T>, b: seq<T>, x: T)
    requires Subsequence(a, b)
    ensures Subsequence(a, b + [x]) && Subsequence(a + [x], b + [x])
  {
    assert (b + [x])[..|b|] == b && (a + [x])[..|a|] == a;
  }

  lemma {:induction false} SubsequenceLength<T>(a: seq<T>, b: seq<T>)
    requires Subsequence(a, b)
    ensures |a| <= |b| && (|a| == |b| ==> a == b)
  {
    if a != [] {
      if Subsequence(a, b[..|b| - 1]) {
        SubsequenceLength(a, b[..|b| - 1]);
      } else {
        SubsequenceLength(a[..|a| - 1], b[..|b| - 1]);
        assert a == a[..|a| - 1] + [a[|a| - 1]] && b == b[..|b| - 1] + [b[|b| - 1]];
      }
    }
  }

  ghost predicate Conserved(s: State, id: nat)
    requires id < |s.subs|
  {
    var l := s.subs[id];
    && l.since <= Seen(s, id) <= |s.log|
    && Subsequence(l.taken + l.queue, Offered(s, id))
    && l.Accepted() + l.missed == |Offered(s, id)|
  }

  function TotalAccepted(subs: seq<Subscription>): nat {
    if subs == [] then 0 else TotalAccepted(subs[..|subs| - 1]) + subs[|subs| - 1].Accepted()
  }

  function TotalMissed(subs: seq<Subscription>): nat {
    if subs == [] then 0 else TotalMissed(subs[..|subs| - 1]) + subs[|subs| - 1].missed
  }

  /** Exactly the subscriptions that have not gone are registered, each once; an emission has a signal in the log
      and at most the registered listeners behind it. */
  ghost predicate Registered(s: State) {
    && (forall i :: 0 <= i < |s.listeners| ==> s.listeners[i] < |s.subs| && !s.subs[s.listeners[i]].phase.Gone?)
    && (forall i, j :: 0 <= i < j < |s.listeners| ==> s.listeners[i] != s.listeners[j])
    && (forall id :: 0 <= id < |s.subs| && !s.subs[id].phase.Gone? ==> id in s.listeners)
    && (s.emitting.Some? ==>
          && s.emitting.value.next <= |s.listeners|
          && |s.log| > 0 && s.log[|s.log| - 1] == s.emitting.value.sig)
  }

  ghost predicate Inv(bufSize: nat, s: State) {
    && Registered(s)
    && (forall id :: 0 <= id < |s.subs| ==> Conserved(s, id) && |s.subs[id].queue| <= bufSize)
    && s.emitted == TotalAccepted(s.subs)
    && s.dropped == TotalMissed(s.subs)
  }

  lemma {:induction false} TotalsUpdate(subs: seq<Subscription>, id: nat, l: Subscription)
    requires id < |subs|
    ensures TotalAccepted(subs[id := l]) == TotalAccepted(subs) - subs[id].Accepted() + l.Accepted()
    ensures TotalMissed(subs[id := l]) == TotalMissed(subs) - subs[id].missed + l.missed
  {
    var n := |subs| - 1;
    if id == n {
      assert subs[id := l][..n] == subs[..n];
    } else {
      assert subs[id := l][..n] == subs[..n][id := l];
      TotalsUpdate(subs[..n], id, l);
    }
  }

  /** Nothing offered to a subscription changes unless the step offers to it. */
  lemma SameOffered(s: State, t: State, id: nat)
    requires id < |s.subs| && id < |t.subs|
    requires s.subs[id].since == t.subs[id].since && s.subs[id].filter == t.subs[id].filter
    requires s.subs[id].taken + s.subs[id].queue == t.subs[id].taken + t.subs[id].queue
    requires s.subs[id].missed == t.subs[id].missed
    requires Seen(s, id) == Seen(t, id) && |s.log| <= |t.log| && t.log[..|s.log|] == s.log
    requires Conserved(s, id)
    ensures Conserved(t, id)
  {
    hide Seen, Filter, Subsequence;
    SamePart(s.log, t.log, s.subs[id].since, Seen(s, id));
    assert |s.subs[id].taken + s.subs[id].queue| == |t.subs[id].taken + t.subs[id].queue|;
  }

  lemma SamePart(a: seq<PbSignal>, b: seq<PbSignal>, lo: nat, hi: nat)
    requires lo <= hi <= |a| <= |b| && b[..|a|] == a
    ensures a[lo..hi] == b[lo..hi]
  {
    assert forall i :: lo <= i < hi ==> a[i] == b[..|a|][i];
  }

  lemma SubscribeKeeps(bufSize: nat, s: State, filter: SignalFilter)
    requires Inv(bufSize, s) && Enabled(s, Subscribe(filter))
    ensures Inv(bufSize, Effect(bufSize, s, Subscribe(filter)))
  {
    hide Conserved, TotalAccepted, TotalMissed, Filter;
    var t := Effect(bufSize, s, Subscribe(filter));
    assert t.subs[..|s.subs|] == s.subs;
    forall id | 0 <= id < |t.subs|
      ensures Conserved(t, id)
    {
      if id < |s.subs| {
        SameOffered(s, t, id);
      } else {
        NewConserved(t, id);
      }
    }
    TotalsSnoc(s.subs, t.subs[|s.subs|]);
  }

  lemma NewConserved(s: State, id: nat)
    requires id < |s.subs| && s.subs[id].since == Seen(s, id) == |s.log|
    requires s.subs[id].taken == s.subs[id].queue == [] && s.subs[id].missed == 0
    ensures Conserved(s, id)
  {
    assert s.log[|s.log|..|s.log|] == [];
  }

  lemma TotalsSnoc(subs: seq<Subscription>, l: Subscription)
    ensures TotalAccepted(subs + [l]) == TotalAccepted(subs) + l.Accepted()
    ensures TotalMissed(subs + [l]) == TotalMissed(subs) + l.missed
  {
    assert (subs + [l])[..|subs|] == subs;
  }

  lemma BeginKeeps(bufSize: nat, s: State, sig: PbSignal)
    requires Inv(bufSize, s) && Enabled(s, BeginEmit(sig))
    ensures Inv(bufSize, Effect(bufSize, s, BeginEmit(sig)))
  {
    hide Conserved, TotalAccepted, TotalMissed, Filter;
    var t := Effect(bufSize, s, BeginEmit(sig));
    forall id | 0 <= id < |t.subs|
      ensures Conserved(t, id)
    {
      SameOffered(s, t, id);
    }
  }

  lemma EndKeeps(bufSize: nat, s: State)
    requires Inv(bufSize, s) && Enabled(s, EndEmit)
    ensures Inv(bufSize, Effect(bufSize, s, EndEmit))
  {
    hide Conserved, TotalAccepted, TotalMissed, Filter;
    var t := Effect(bufSize, s, EndEmit);
    assert s.listeners[..s.emitting.value.next] == s.listeners;
    forall id | 0 <= id < |t.subs|
      ensures Conserved(t, id)
    {
      SameOffered(s, t, id);
    }
  }

  /** The one subscription that a listener's own step touches keeps what it has. */
  lemma OwnStepKeeps(bufSize: nat, s: State, step: Step)
    requires Inv(bufSize, s) && Enabled(s, step) && (step.Forward? || step.Disconnect?)
    ensures Inv(bufSize, Effect(bufSize, s, step))
  {
    hide Conserved, TotalAccepted, TotalMissed, OfferNext, Without;
    var t := Effect(bufSize, s, step);
    TotalsUpdate(s.subs, step.id, t.subs[step.id]);
    forall id | 0 <= id < |t.subs|
      ensures Conserved(t, id)
    {
      OwnStepConserves(bufSize, s, step, id);
    }
  }

  lemma OwnStepConserves(bufSize: nat, s: State, step: Step, id: nat)
    requires Enabled(s, step) && (step.Forward? || step.Disconnect?) && id < |s.subs| && Conserved(s, id)
    ensures Conserved(Effect(bufSize, s, step), id)
  {
    hide Conserved, OfferNext, Without;
    var t := Effect(bufSize, s, step);
    if step.Forward? && id == step.id {
      var q := s.subs[id].queue;
      assert q == [q[0]] + q[1..];
      assert s.subs[id].taken + q == t.subs[id].taken + t.subs[id].queue;
    }
    SameOffered(s, t, id);
  }

  lemma {:induction false} WithoutKeepsOthers(listeners: seq<nat>, id: nat)
    requires forall i, j :: 0 <= i < j < |listeners| ==> listeners[i] != listeners[j]
    ensures var rest := Without(listeners, id);
            && (forall x :: x in rest <==> x in listeners && x != id)
            && (forall i, j :: 0 <= i < j < |rest| ==> rest[i] != rest[j])
  {
    if listeners != [] {
      var n := |listeners| - 1;
      WithoutKeepsOthers(listeners[..n], id);
      assert listeners == listeners[..n] + [listeners[n]];
      assert listeners[n] !in listeners[..n];
      FilterAppend(existing => existing != id, listeners[..n], [listeners[n]]);
    }
  }

  lemma UnsubscribeKeeps(bufSize: nat, s: State, id: nat)
    requires Inv(bufSize, s) && Enabled(s, Unsubscribe(id))
    ensures Inv(bufSize, Effect(bufSize, s, Unsubscribe(id)))
  {
    hide Conserved, TotalAccepted, TotalMissed, Filter;
    var t := Effect(bufSize, s, Unsubscribe(id));
    WithoutKeepsOthers(s.listeners, id);
    TotalsUpdate(s.subs, id, t.subs[id]);
    assert forall i :: 0 <= i < |t.listeners| ==> t.listeners[i] in t.listeners;
    forall k | 0 <= k < |t.subs|
      ensures Conserved(t, k)
    {
      SameOffered(s, t, k);
    }
  }

  /** Offering to a listener accounts for the signal there, and nowhere else. */
  lemma OfferKeeps(bufSize: nat, s: State, receiverWaits: bool)
    requires Inv(bufSize, s) && Enabled(s, Offer(receiverWaits))
    ensures Inv(bufSize, Effect(bufSize, s, Offer(receiverWaits)))
  {
    hide Conserved, TotalAccepted, TotalMissed, Registered, Enabled, Effect;
    OfferKeepsRegistered(bufSize, s, receiverWaits);
    OfferCounts(bufSize, s, receiverWaits);
    var t := Effect(bufSize, s, Offer(receiverWaits));
    forall k | 0 <= k < |t.subs|
      ensures Conserved(t, k)
    {
      OfferConserves(bufSize, s, receiverWaits, k);
    }
  }

  lemma OfferKeepsRegistered(bufSize: nat, s: State, receiverWaits: bool)
    requires Registered(s) && Enabled(s, Offer(receiverWaits))
    ensures Registered(Effect(bufSize, s, Offer(receiverWaits)))
    ensures |Effect(bufSize, s, Offer(receiverWaits)).subs| == |s.subs|
  {
    hide MatchesFilter;
  }

  lemma OfferCounts(bufSize: nat, s: State, receiverWaits: bool)
    requires Registered(s) && Enabled(s, Offer(receiverWaits))
    requires s.emitted == TotalAccepted(s.subs) && s.dropped == TotalMissed(s.subs)
    requires forall id :: 0 <= id < |s.subs| ==> |s.subs[id].queue| <= bufSize
    ensures var t := Effect(bufSize, s, Offer(receiverWaits));
            && t.emitted == TotalAccepted(t.subs) && t.dropped == TotalMissed(t.subs)
            && forall id :: 0 <= id < |t.subs| ==> |t.subs[id].queue| <= bufSize
  {
    hide MatchesFilter, TotalAccepted, TotalMissed;
    var t, id := Effect(bufSize, s, Offer(receiverWaits)), s.listeners[s.emitting.value.next];
    assert t.subs == s.subs[id := t.subs[id]];
    TotalsUpdate(s.subs, id, t.subs[id]);
  }

  lemma OfferConserves(bufSize: nat, s: State, receiverWaits: bool, k: nat)
    requires Registered(s) && Enabled(s, Offer(receiverWaits)) && k < |s.subs| && Conserved(s, k)
    ensures var t := Effect(bufSize, s, Offer(receiverWaits)); k < |t.subs| && Conserved(t, k)
  {
    hide Conserved, MatchesFilter, Send;
    var t, next := Effect(bufSize, s, Offer(receiverWaits)), s.emitting.value.next;
    if k == s.listeners[next] {
      OfferIsSeen(bufSize, s, receiverWaits);
      SeeingKeepsAccount(bufSize, s, t, k, s.emitting.value.sig, receiverWaits);
    } else {
      assert s.listeners[..next + 1] == s.listeners[..next] + [s.listeners[next]];
      SameOffered(s, t, k);
    }
  }

  /** The signal being offered is the next part of the log that the listener has not seen. */
  lemma OfferIsSeen(bufSize: nat, s: State, receiverWaits: bool)
    requires Registered(s) && Enabled(s, Offer(receiverWaits))
    ensures var t := Effect(bufSize, s, Offer(receiverWaits));
            var id := s.listeners[s.emitting.value.next];
            && t.log == s.log && |t.subs| == |s.subs|
            && t.subs[id] == (if MatchesFilter(s.subs[id].filter, s.emitting.value.sig)
                              then Send(bufSize, s.subs[id], s.emitting.value.sig, receiverWaits) else s.subs[id])
            && Seen(s, id) == |s.log| - 1 && Seen(t, id) == |s.log| && s.log[|s.log| - 1] == s.emitting.value.sig
  {
    hide MatchesFilter;
    var next := s.emitting.value.next;
    assert s.listeners[..next + 1] == s.listeners[..next] + [s.listeners[next]];
    assert s.listeners[next] !in s.listeners[..next];
  }

  /** Seeing one more signal keeps a listener's account, whether its filter lets it through or not. */
  lemma SeeingKeepsAccount(bufSize: nat, s: State, t: State, id: nat, sig: PbSignal, receiverWaits: bool)
    requires id < |s.subs| && id < |t.subs| && s.log == t.log && s.log != [] && s.log[|s.log| - 1] == sig
    requires Seen(s, id) == |s.log| - 1 && Seen(t, id) == |s.log|
    requires t.subs[id] == if MatchesFilter(s.subs[id].filter, sig) then Send(bufSize, s.subs[id], sig, receiverWaits)
                           else s.subs[id]
    requires Conserved(s, id)
    ensures Conserved(t, id)
  {
    hide Filter, Subsequence, Seen, MatchesFilter;
    var l, l', n := s.subs[id], t.subs[id], |s.log| - 1;
    assert s.log[l.since..n + 1] == s.log[l.since..n] + [sig];
    FilterSnoc(Wanted(l.filter), s.log[l.since..n], sig);
    SubsequenceSnoc(l.taken + l.queue, Offered(s, id), sig);
    if Wanted(l.filter)(sig) {
      assert Offered(t, id) == Offered(s, id) + [sig];
      if l'.missed == l.missed {
        assert l'.taken + l'.queue == l.taken + l.queue + [sig];
      }
    } else {
      assert Offered(t, id) == Offered(s, id);
    }
  }

  lemma StepKeeps(bufSize: nat, s: State, step: Step)
    requires Inv(bufSize, s)
    ensures Inv(bufSize, Next(bufSize, s, step))
  {
    if Enabled(s, step) {
      match step
      case Subscribe(filter) => SubscribeKeeps(bufSize, s, filter);
      case BeginEmit(sig) => BeginKeeps(bufSize, s, sig);
      case Offer(receiverWaits) => OfferKeeps(bufSize, s, receiverWaits);
      case EndEmit => EndKeeps(bufSize, s);
      case Forward(_, _) => OwnStepKeeps(bufSize, s, step);
      case Disconnect(_) => OwnStepKeeps(bufSize, s, step);
      case Unsubscribe(id) => UnsubscribeKeeps(bufSize, s, id);
    }
  }

  lemma {:induction false} RunKeeps(bufSize: nat, steps: seq<Step>)
    ensures Inv(bufSize, Run(bufSize, steps))
  {
    if steps != [] {
      RunKeeps(bufSize, steps[..|steps| - 1]);
      StepKeeps(bufSize, Run(bufSize, steps[..|steps| - 1]), steps[|steps| - 1]);
    }
  }

  /** Fan-out conservation, over all interleavings: what a subscription took and still has queued is, in order,
      part of the matching signals emitted while it was registered; it is all of them unless one was dropped for
      it; and what it accepted and missed adds up to them. */
  lemma FanOutConservation(bufSize: nat, steps: seq<Step>, id: nat)
    requires id < |Run(bufSize, steps).subs|
    ensures var s := Run(bufSize, steps);
            var l := s.subs[id];
            && Subsequence(l.taken + l.queue, Offered(s, id))
            && l.Accepted() + l.missed == |Offered(s, id)|
            && (l.missed == 0 <==> l.taken + l.queue == Offered(s, id))
            && |l.queue| <= bufSize
  {
    RunKeeps(bufSize, steps);
    var s := Run(bufSize, steps);
    assert Conserved(s, id);
    SubsequenceLength(s.subs[id].taken + s.subs[id].queue, Offered(s, id));
  }

  // ---------------------------------------------------------------------------------------------------------
  // When a signal is dropped
  // ---------------------------------------------------------------------------------------------------------

  /** The step offers subscription id a signal it wants when its queue is full, or, on an unbuffered channel, when its
      goroutine is not waiting. */
  ghost predicate OfferedInVain(bufSize: nat, s: State, step: Step, id: nat) {
    && step.Offer? && Enabled(s, step) && s.listeners[s.emitting.value.next] == id
    && MatchesFilter(s.subs[id].filter, s.emitting.value.sig)
    && |s.subs[id].queue| >= bufSize
    && !(bufSize == 0 && s.subs[id].phase.Serving? && step.receiverWaits)
  }

  /** How often that happened to the subscription in the run. */
  ghost function TimesInVain(bufSize: nat, steps: seq<Step>, id: nat): nat {
    if steps == [] then 0
    else
      var n := |steps| - 1;
      TimesInVain(bufSize, steps[..n], id)
      + if OfferedInVain(bufSize, Run(bufSize, steps[..n]), steps[n], id) then 1 else 0
  }

  /** A step makes a subscription miss a signal exactly when it offers one in vain. */
  lemma StepMisses(bufSize: nat, s: State, step: Step, id: nat)
    requires Inv(bufSize, s) && Enabled(s, step) && id < |s.subs|
    ensures var t := Effect(bufSize, s, step);
            && id < |t.subs|
            && t.subs[id].missed == s.subs[id].missed + if OfferedInVain(bufSize, s, step, id) then 1 else 0
  {
    hide Conserved, TotalAccepted, TotalMissed, MatchesFilter;
  }

  lemma NewMisses(bufSize: nat, s: State, step: Step, id: nat)
    requires Enabled(s, step) && id >= |s.subs|
    ensures var t := Effect(bufSize, s, step);
            && (id < |t.subs| ==> t.subs[id].missed == 0)
            && !OfferedInVain(bufSize, s, step, id)
  {
    hide MatchesFilter, Send;
  }

  /** A subscription misses a signal every time, and only when, one it wants is offered to it in vain. */
  lemma {:induction false} MissedIsInVain(bufSize: nat, steps: seq<Step>, id: nat)
    ensures var s := Run(bufSize, steps);
            TimesInVain(bufSize, steps, id) == if id < |s.subs| then s.subs[id].missed else 0
  {
    if steps != [] {
      hide Effect, Enabled, OfferedInVain, Inv;
      var init, step := steps[..|steps| - 1], steps[|steps| - 1];
      var s := Run(bufSize, init);
      MissedIsInVain(bufSize, init, id);
      RunKeeps(bufSize, init);
      if !Enabled(s, step) {
        DisabledOffersNothing(bufSize, s, step, id);
      } else if id < |s.subs| {
        StepMisses(bufSize, s, step, id);
      } else {
        NewMisses(bufSize, s, step, id);
      }
    }
  }

  lemma DisabledOffersNothing(bufSize: nat, s: State, step: Step, id: nat)
    requires !Enabled(s, step)
    ensures !OfferedInVain(bufSize, s, step, id)
  {
  }

  lemma {:induction false} NeverInVain(bufSize: nat, steps: seq<Step>, id: nat)
    ensures TimesInVain(bufSize, steps, id) == 0
            <==> forall n :: 0 <= n < |steps| ==> !OfferedInVain(bufSize, Run(bufSize, steps[..n]), steps[n], id)
  {
    hide OfferedInVain, Run;
    if steps != [] {
      var init := steps[..|steps| - 1];
      NeverInVain(bufSize, init, id);
      assert forall n :: 0 <= n < |init| ==> init[..n] == steps[..n] && init[n] == steps[n];
    }
  }

  /** Nothing is lost while there is room: what a subscription took and still has queued is all of the matching
      signals emitted while it was registered, in order, if and only if at every offer of one its queue was not full,
      or, on an unbuffered channel, its goroutine was waiting. */
  lemma NothingLostWithRoom(bufSize: nat, steps: seq<Step>, id: nat)
    requires id < |Run(bufSize, steps).subs|
    ensures var s := Run(bufSize, steps);
            s.subs[id].taken + s.subs[id].queue == Offered(s, id)
            <==> forall n :: 0 <= n < |steps| ==> !OfferedInVain(bufSize, Run(bufSize, steps[..n]), steps[n], id)
  {
    hide OfferedInVain, Run;
    FanOutConservation(bufSize, steps, id);
    MissedIsInVain(bufSize, steps, id);
    NeverInVain(bufSize, steps, id);
  }

  /** The two counters are the sums over every subscription there ever was. */
  lemma CountersAreTotals(bufSize: nat, steps: seq<Step>)
    ensures var s := Run(bufSize, steps);
            s.emitted == TotalAccepted(s.subs) && s.dropped == TotalMissed(s.subs)
  {
    RunKeeps(bufSize, steps);
  }

  // ---------------------------------------------------------------------------------------------------------
  // The emitter itself
  // ---------------------------------------------------------------------------------------------------------

  lemma RunSnoc(bufSize: nat, steps: seq<Step>, step: Step)
    ensures Run(bufSize, steps + [step]) == Next(bufSize, Run(bufSize, steps), step)
  {
    assert (steps + [step])[..|steps|] == steps;
  }

  lemma RunBegins(bufSize: nat, steps: seq<Step>, sig: PbSignal)
    requires Run(bufSize, steps).emitting.None?
    ensures var s := Run(bufSize, steps);
            Run(bufSize, steps + [BeginEmit(sig)]) == s.(emitting := Some(Emission(sig, 0)), log := s.log + [sig])
  {
    hide Run;
    RunSnoc(bufSize, steps, BeginEmit(sig));
  }

  lemma RunEnds(bufSize: nat, steps: seq<Step>)
    requires var s := Run(bufSize, steps); s.emitting.Some? && s.emitting.value.next == |s.listeners|
    ensures Run(bufSize, steps + [EndEmit]) == Run(bufSize, steps).(emitting := None)
  {
    hide Run;
    RunSnoc(bufSize, steps, EndEmit);
  }

  lemma ListenersExist(bufSize: nat, steps: seq<Step>)
    ensures var s := Run(bufSize, steps);
            && (forall i :: 0 <= i < |s.listeners| ==> s.listeners[i] < |s.subs|)
            && (forall i, j :: 0 <= i < j < |s.listeners| ==> s.listeners[i] != s.listeners[j])
  {
    RunKeeps(bufSize, steps);
  }

  lemma QueuesFit(bufSize: nat, steps: seq<Step>)
    ensures var s := Run(bufSize, steps); forall id :: 0 <= id < |s.subs| ==> |s.subs[id].queue| <= bufSize
  {
    RunKeeps(bufSize, steps);
  }

  /** What offering a signal makes of a listener.  The filter decides first.  A buffered channel takes the signal when
      fewer than bufSize are queued, an unbuffered one when the goroutine waits on it. */
  ghost predicate Sent(bufSize: nat, l: Subscription, l': Subscription, sig: PbSignal, waits: bool) {
    if !MatchesFilter(l.filter, sig) then l' == l
    else if bufSize == 0 && l.phase.Serving? && waits then l' == l.(taken := l.taken + [sig])
    else if |l.queue| < bufSize then l' == l.(queue := l.queue + [sig])
    else l' == l.(missed := l.missed + 1)
  }

  ghost predicate OnlyThis(subs: seq<Subscription>, subs': seq<Subscription>, id: nat) {
    |subs| == |subs'| && forall k :: 0 <= k < |subs| && k != id ==> subs'[k] == subs[k]
  }

  /** The subscription has more than before. */
  ghost function Gains(subs: seq<Subscription>, subs': seq<Subscription>): nat -> bool {
    (id: nat) => id < |subs| && id < |subs'| && subs'[id].Accepted() > subs[id].Accepted()
  }

  /** The subscription has missed more than before. */
  ghost function Misses(subs: seq<Subscription>, subs': seq<Subscription>): nat -> bool {
    (id: nat) => id < |subs| && id < |subs'| && subs'[id].missed > subs[id].missed
  }

  lemma {:induction false} SameFilter(p: nat -> bool, q: nat -> bool, s: seq<nat>)
    requires forall x :: x in s ==> p(x) == q(x)
    ensures Filter(p, s) == Filter(q, s)
  {
    if s != [] {
      SameFilter(p, q, s[..|s| - 1]);
    }
  }

  /** A step at one subscription does not change the counts over others. */
  lemma SameCounts(start: seq<Subscription>, before: seq<Subscription>, after: seq<Subscription>, ids: seq<nat>,
                   id: nat)
    requires OnlyThis(before, after, id) && id !in ids
    ensures Filter(Gains(start, before), ids) == Filter(Gains(start, after), ids)
    ensures Filter(Misses(start, before), ids) == Filter(Misses(start, after), ids)
  {
    hide Filter;
    SameFilter(Gains(start, before), Gains(start, after), ids);
    SameFilter(Misses(start, before), Misses(start, after), ids);
  }

  /** After i offers: the first i listeners got one each, nobody else changed, and so many gained and missed. */
  ghost predicate OfferedSoFar(bufSize: nat, start: seq<Subscription>, subs: seq<Subscription>, listeners: seq<nat>,
                               i: nat, sig: PbSignal, waits: nat -> bool, gained: int, missed: int) {
    && i <= |listeners| && |subs| == |start|
    && (forall j :: 0 <= j < i ==>
          listeners[j] < |subs| && Sent(bufSize, start[listeners[j]], subs[listeners[j]], sig, waits(j)))
    && (forall k :: 0 <= k < |subs| && k !in listeners[..i] ==> subs[k] == start[k])
    && gained == |Filter(Gains(start, subs), listeners[..i])|
    && missed == |Filter(Misses(start, subs), listeners[..i])|
  }

  lemma NoOffers(bufSize: nat, subs: seq<Subscription>, listeners: seq<nat>, sig: PbSignal, waits: nat -> bool)
    ensures OfferedSoFar(bufSize, subs, subs, listeners, 0, sig, waits, 0, 0)
  {
  }

  lemma OneMoreOffer(bufSize: nat, start: seq<Subscription>, before: seq<Subscription>, after: seq<Subscription>,
                     listeners: seq<nat>, i: nat, sig: PbSignal, waits: nat -> bool, gained: int, missed: int)
    requires OfferedSoFar(bufSize, start, before, listeners, i, sig, waits, gained, missed)
    requires i < |listeners| && listeners[i] < |before| && OnlyThis(before, after, listeners[i])
    requires forall j, k :: 0 <= j < k < |listeners| ==> listeners[j] != listeners[k]
    requires Sent(bufSize, before[listeners[i]], after[listeners[i]], sig, waits(i))
    ensures var l, l' := before[listeners[i]], after[listeners[i]];
            OfferedSoFar(bufSize, start, after, listeners, i + 1, sig, waits,
                         gained + (if l'.Accepted() > l.Accepted() then 1 else 0),
                         missed + (if l'.missed > l.missed then 1 else 0))
  {
    hide Filter, Sent;
    var id, ids := listeners[i], listeners[..i];
    assert id !in ids && before[id] == start[id];
    assert listeners[..i + 1] == ids + [id];
    SameCounts(start, before, after, ids, id);
    FilterSnoc(Gains(start, after), ids, id);
    FilterSnoc(Misses(start, after), ids, id);
  }

  lemma AllOffered(bufSize: nat, start: seq<Subscription>, subs: seq<Subscription>, listeners: seq<nat>, sig: PbSignal,
                   waits: nat -> bool, gained: int, missed: int)
    requires OfferedSoFar(bufSize, start, subs, listeners, |listeners|, sig, waits, gained, missed)
    ensures |subs| == |start|
    ensures forall i :: 0 <= i < |listeners| ==>
              listeners[i] < |subs| && Sent(bufSize, start[listeners[i]], subs[listeners[i]], sig, waits(i))
    ensures forall k :: 0 <= k < |subs| && k !in listeners ==> subs[k] == start[k]
    ensures gained == |Filter(Gains(start, subs), listeners)| && missed == |Filter(Misses(start, subs), listeners)|
  {
    hide Filter, Sent;
    assert listeners[..|listeners|] == listeners;
  }

  /** One offer to each of the first n listeners. */
  function Offers(waits: nat -> bool, n: nat): seq<Step> {
    if n == 0 then [] else Offers(waits, n - 1) + [Offer(waits(n - 1))]
  }

  /** The emitter object; a subscription's number stands for the identity of its listener.  Each method is what one
      goroutine does, and records the steps it took. */
  class Emitter {
    const bufSize: nat
    var subs: seq<Subscription>
    var listeners: seq<nat>
    var emitted: nat
    var dropped: nat
    var log: seq<PbSignal>  // every signal whose emission has begun, kept for the accounting
    ghost var steps: seq<Step>

    ghost function Between(emitting: Option<Emission>): State
      reads this
    {
      State(subs, listeners, emitting, log, emitted, dropped)
    }

    ghost predicate Valid()
      reads this
    {
      Between(None) == Run(bufSize, steps)
    }

    constructor (bufSize: nat)
      ensures Valid() && this.bufSize == bufSize && subs == [] && listeners == [] && emitted == 0 && dropped == 0
    {
      this.bufSize := bufSize;
      subs, listeners, emitted, dropped := [], [], 0, 0;
      log, steps := [], [];
    }

    /** The non-blocking send to listener number i; `waits` says whether its goroutine is waiting on the channel. */
    method OfferTo(sig: PbSignal, i: nat, waits: bool)
      requires i < |listeners| && Between(Some(Emission(sig, i))) == Run(bufSize, steps)
      modifies this
      ensures Between(Some(Emission(sig, i + 1))) == Run(bufSize, steps) && steps == old(steps) + [Offer(waits)]
      ensures listeners == old(listeners) && log == old(log) && |subs| == |old(subs)| && listeners[i] < |subs|
      ensures OnlyThis(old(subs), subs, listeners[i])
      ensures var l, l' := old(subs)[listeners[i]], subs[listeners[i]];
              && Sent(bufSize, l, l', sig, waits)
              && emitted == old(emitted) + (if l'.Accepted() > l.Accepted() then 1 else 0)
              && dropped == old(dropped) + (if l'.missed > l.missed then 1 else 0)
    {
      hide Run;
      ListenersExist(bufSize, steps);
      QueuesFit(bufSize, steps);
      RunSnoc(bufSize, steps, Offer(waits));
      steps := steps + [Offer(waits)];
      var id := listeners[i];
      if MatchesFilter(subs[id].filter, sig) {
        if |subs[id].queue| < bufSize {
          subs := subs[id := subs[id].(queue := subs[id].queue + [sig])];
          emitted := emitted + 1;
        } else if bufSize == 0 && subs[id].queue == [] && subs[id].phase.Serving? && waits {
          subs := subs[id := subs[id].(taken := subs[id].taken + [sig])];
          emitted := emitted + 1;
        } else {
          subs := subs[id := subs[id].(missed := subs[id].missed + 1)];
          dropped := dropped + 1;
        }
      }
    }

    /** Offers the signal to every registered listener, in turn.  A listener with room gets it at the end of its queue
        and it counts as emitted; a listener whose queue is full keeps what it has and it counts as dropped; a
        listener whose filter it does not pass, and anyone not registered, is left alone. */
    method Emit(sig: PbSignal, waits: nat -> bool)
      requires Valid()
      modifies this
      ensures Valid() && listeners == old(listeners) && log == old(log) + [sig] && |subs| == |old(subs)|
      ensures steps == old(steps) + [BeginEmit(sig)] + Offers(waits, |listeners|) + [EndEmit]
      ensures forall i :: 0 <= i < |listeners| ==>
                listeners[i] < |subs| && Sent(bufSize, old(subs)[listeners[i]], subs[listeners[i]], sig, waits(i))
      ensures forall k :: 0 <= k < |subs| && k !in listeners ==> subs[k] == old(subs)[k]
      ensures emitted == old(emitted) + |Filter(Gains(old(subs), subs), listeners)|
      ensures dropped == old(dropped) + |Filter(Misses(old(subs), subs), listeners)|
    {
      hide Run, Filter, Sent, OfferedSoFar, OnlyThis, Gains, Misses;
      ListenersExist(bufSize, steps);
      RunBegins(bufSize, steps, sig);
      steps, log := steps + [BeginEmit(sig)], log + [sig];
      ghost var started := steps;
      NoOffers(bufSize, subs, listeners, sig, waits);
      for i := 0 to |listeners|
        invariant Between(Some(Emission(sig, i))) == Run(bufSize, steps)
        invariant listeners == old(listeners) && log == old(log) + [sig]
        invariant steps == started + Offers(waits, i)
        invariant OfferedSoFar(bufSize, old(subs), subs, listeners, i, sig, waits,
                               emitted - old(emitted), dropped - old(dropped))
      {
        ghost var before, gained, missed := subs, emitted - old(emitted), dropped - old(dropped);
        OfferTo(sig, i, waits(i));
        OneMoreOffer(bufSize, old(subs), before, subs, listeners, i, sig, waits, gained, missed);
      }
      AllOffered(bufSize, old(subs), subs, listeners, sig, waits, emitted - old(emitted), dropped - old(dropped));
      RunEnds(bufSize, steps);
      steps := steps + [EndEmit];
    }

    /** Registers a listener with an empty queue. */
    method Subscribe(filter: SignalFilter) returns (id: nat)
      requires Valid()
      modifies this
      ensures Valid() && steps == old(steps) + [Step.Subscribe(filter)]
      ensures id == |old(subs)| && listeners == old(listeners) + [id]
      ensures subs == old(subs) + [Subscription(filter, [], Serving, [], 0, |log|, 0)]
      ensures log == old(log) && emitted == old(emitted) && dropped == old(dropped)
    {
      hide Run;
      RunSnoc(bufSize, steps, Step.Subscribe(filter));
      id := |subs|;
      subs := subs + [Subscription(filter, [], Serving, [], 0, |log|, 0)];
      listeners := listeners + [id];
      steps := steps + [Step.Subscribe(filter)];
    }

    /** One turn of a listener's loop: it takes a signal from its queue when there is one, and stops serving when
        the stream fails or its client is gone. */
    method Serve(id: nat, clientGone: bool, sendFails: bool) returns (sent: Option<PbSignal>)
      requires Valid() && id < |subs| && subs[id].phase.Serving?
      modifies this
      ensures Valid() && listeners == old(listeners) && log == old(log)
      ensures emitted == old(emitted) && dropped == old(dropped) && |subs| == |old(subs)|
      ensures match sent
              case None => subs[id].taken == old(subs[id].taken) && subs[id].queue == old(subs[id].queue)
              case Some(sig) =>
                subs[id].taken == old(subs[id].taken) + [sig] && [sig] + subs[id].queue == old(subs[id].queue)
      ensures sent.Some? <==> !clientGone && old(subs)[id].queue != []
      ensures subs[id].phase == if clientGone || (sent.Some? && sendFails) then Leaving else Serving
      ensures subs[id].missed == old(subs)[id].missed
      ensures forall k :: 0 <= k < |subs| && k != id ==> subs[k] == old(subs)[k]
    {
      hide Run;
      if clientGone {
        RunSnoc(bufSize, steps, Disconnect(id));
        subs := subs[id := subs[id].(phase := Leaving)];
        steps := steps + [Disconnect(id)];
        sent := None;
      } else if subs[id].queue != [] {
        RunSnoc(bufSize, steps, Forward(id, sendFails));
        var sig := subs[id].queue[0];
        subs := subs[id := subs[id].(queue := subs[id].queue[1..], taken := subs[id].taken + [sig],
                                     phase := if sendFails then Leaving else Serving)];
        steps := steps + [Forward(id, sendFails)];
        sent := Some(sig);
      } else {
        sent := None;
      }
    }

    /** Deletes a leaving listener from the registered ones. */
    method Unsubscribe(id: nat)
      requires Valid() && id < |subs| && subs[id].phase.Leaving?
      modifies this
      ensures Valid() && steps == old(steps) + [Step.Unsubscribe(id)]
      ensures forall k :: k in listeners <==> k in old(listeners) && k != id
      ensures log == old(log) && emitted == old(emitted) && dropped == old(dropped)
    {
      hide Run;
      RunSnoc(bufSize, steps, Step.Unsubscribe(id));
      ListenersExist(bufSize, steps);
      WithoutKeepsOthers(listeners, id);
      listeners := Without(listeners, id);
      subs := subs[id := subs[id].(phase := Gone, until := |log|)];
      steps := steps + [Step.Unsubscribe(id)];
    }
  }

  lemma FilterEmpty(p: nat -> bool)
    ensures Filter(p, []) == []
  {
  }
}
