/** The staged pipeline as a system of steps: a producer, the normalizer, a pool of enricher workers, the engine and
    the emitter, joined by bounded channels that the upstream side closes.  Any interleaving of the steps is a run. */
module Pipeline {
  import opened Sequences

  /** What the stages compute, and the capacities of the channels between them.  Normalizing fails on a malformed
      event; what the engine makes of an event depends on the events it processed before. */
  datatype Stages<!R, !M, !O, S> = Stages(
    normalize: R -> Option<M>,
    enrich: M -> O,
    evaluate: (seq<O>, O) -> seq<S>,
    rawCap: nat,
    midCap: nat,
    outCap: nat,
    sigCap: nat)

  datatype Channel<T> = Channel(buf: seq<T>, closed: bool)

  datatype Normalizer<M> = Reading | Sending(item: M) | Exited

  datatype Worker<O> = Idle | Holding(item: O) | Stopped

  /** The engine sends the signals of one event before it reads the next. */
  datatype Engine<S> = Waiting | Emitting(pending: seq<S>) | Finished

  /** The producer hands on what the adapter delivers: `held` says that it has received the first of `todo` and is
      about to send it.  `received` is what the engine processed, `delivered` what the emitter
      emitted, and `skipped` the signal over which a cancelled emitter returned; `lost`
      collects the events that cancellation throws away; `panicked` is set by a send on, or a close of, a closed
      channel. */
  datatype State<R, M, O, S> = State(
    todo: seq<R>,
    held: bool,
    raw: Channel<R>,
    norm: Normalizer<M>,
    mid: Channel<M>,
    workers: seq<Worker<O>>,
    enricherDone: bool,
    out: Channel<O>,
    eng: Engine<S>,
    received: seq<O>,
    sigs: Channel<S>,
    delivered: seq<S>,
    skipped: seq<S>,
    lost: seq<O>,
    cancelled: bool,
    panicked: bool)

  datatype Step =
    | Accept
    | Produce
    | StopProducing
    | NormReceive
    | NormEnd
    | NormSend
    | NormCancel
    | WorkReceive(i: nat)
    | WorkEnd(i: nat)
    | WorkSend(i: nat)
    | WorkCancel(i: nat)
    | CloseOut
    | EngReceive
    | EngEnd
    | EngSend
    | EngCancel
    | Emit
    | EmitStop
    | Cancel

  /** The steps of the producer and the normalizer. */
  predicate Feeds(step: Step) {
    step.Accept? || step.Produce? || step.StopProducing?
    || step.NormReceive? || step.NormEnd? || step.NormSend? || step.NormCancel?
  }

  /** The steps of the pool. */
  predicate Works(step: Step) {
    step.WorkReceive? || step.WorkEnd? || step.WorkSend? || step.WorkCancel? || step.CloseOut?
  }

  /** The steps of the engine and the emitter, and cancellation. */
  predicate Drains(step: Step) {
    !Feeds(step) && !Works(step)
  }

  function WorkerCount(configured: int): nat {
    if configured <= 0 then 4 else configured
  }

  function Start<R, M, O, S>(inputs: seq<R>, configuredWorkers: int): State<R, M, O, S> {
    State(inputs, false, Channel([], false), Reading, Channel([], false),
          seq(WorkerCount(configuredWorkers), _ => Idle), false, Channel([], false),
          Waiting, [], Channel([], false), [], [], [], false, false)
  }

  function Push<T>(c: Channel<T>, x: T): Channel<T> {
    c.(buf := c.buf + [x])
  }

  function Pop<T>(c: Channel<T>): Channel<T>
    requires c.buf != []
  {
    c.(buf := c.buf[1..])
  }

  function Close<T>(c: Channel<T>): Channel<T> {
    c.(closed := true)
  }

  predicate FeedEnabled<R, M, O, S>(p: Stages<R, M, O, S>, s: State<R, M, O, S>, step: Step)
    requires Feeds(step)
  {
    match step
    case Accept => s.todo != [] && !s.held && !s.raw.closed
    case Produce => s.todo != [] && s.held && |s.raw.buf| < p.rawCap
    case StopProducing => (s.todo == [] || s.cancelled) && !s.held && !s.raw.closed
    case NormReceive => s.norm.Reading? && s.raw.buf != []
    case NormEnd => s.norm.Reading? && s.raw.buf == [] && s.raw.closed
    case NormSend => s.norm.Sending? && |s.mid.buf| < p.midCap
    case NormCancel => s.norm.Sending? && s.cancelled
  }

  predicate WorkEnabled<R, M, O, S>(p: Stages<R, M, O, S>, s: State<R, M, O, S>, step: Step)
    requires Works(step)
  {
    match step
    case WorkReceive(i) => i < |s.workers| && s.workers[i].Idle? && s.mid.buf != []
    case WorkEnd(i) => i < |s.workers| && s.workers[i].Idle? && s.mid.buf == [] && s.mid.closed
    case WorkSend(i) => i < |s.workers| && s.workers[i].Holding? && |s.out.buf| < p.outCap
    case WorkCancel(i) => i < |s.workers| && s.workers[i].Holding? && s.cancelled
    case CloseOut => AllStopped(s.workers) && !s.enricherDone
  }

  predicate DrainEnabled<R, M, O, S>(p: Stages<R, M, O, S>, s: State<R, M, O, S>, step: Step)
    requires Drains(step)
  {
    match step
    case EngReceive => s.eng.Waiting? && s.out.buf != []
    case EngEnd => s.eng.Waiting? && s.out.buf == [] && s.out.closed
    case EngSend => s.eng.Emitting? && s.eng.pending != [] && |s.sigs.buf| < p.sigCap
    case EngCancel => s.eng.Emitting? && s.cancelled
    case Emit => s.sigs.buf != [] && |s.skipped| == 0
    case EmitStop => s.sigs.buf != [] && |s.skipped| == 0 && s.cancelled
    case Cancel => !s.cancelled
  }

  predicate Enabled<R, M, O, S>(p: Stages<R, M, O, S>, s: State<R, M, O, S>, step: Step) {
    if Feeds(step) then FeedEnabled(p, s, step)
    else if Works(step) then WorkEnabled(p, s, step)
    else DrainEnabled(p, s, step)
  }

  predicate AllStopped<O>(workers: seq<Worker<O>>) {
    forall i :: 0 <= i < |workers| ==> workers[i].Stopped?
  }

  /** The normalizer returns, which closes its output. */
  function NormExit<R, M, O, S>(s: State<R, M, O, S>): State<R, M, O, S> {
    s.(norm := Exited, mid := Close(s.mid), panicked := s.panicked || s.mid.closed)
  }

  /** The engine returns, which closes its output. */
  function EngExit<R, M, O, S>(s: State<R, M, O, S>): State<R, M, O, S> {
    s.(eng := Finished, sigs := Close(s.sigs), panicked := s.panicked || s.sigs.closed)
  }

  function Resume<S>(pending: seq<S>): Engine<S> {
    if pending == [] then Waiting else Emitting(pending)
  }

  /** What the normalizer does next with an event: a malformed one is skipped. */
  function Normalized<R, M, O, S>(p: Stages<R, M, O, S>, r: R): Normalizer<M> {
    match p.normalize(r)
    case None => Reading
    case Some(m) => Sending(m)
  }

  function FeedEffect<R, M, O, S>(p: Stages<R, M, O, S>, s: State<R, M, O, S>, step: Step): State<R, M, O, S>
    requires Feeds(step) && FeedEnabled(p, s, step)
  {
    match step
    case Accept => s.(held := true)
    case Produce =>
      s.(todo := s.todo[1..], held := false, raw := Push(s.raw, s.todo[0]), panicked := s.panicked || s.raw.closed)
    case StopProducing => s.(todo := [], raw := Close(s.raw), lost := s.lost + Enriched(p, s.todo))
    case NormReceive =>
      if s.cancelled then NormExit(s.(raw := Pop(s.raw), lost := s.lost + EnrichedOne(p, s.raw.buf[0])))
      else s.(raw := Pop(s.raw), norm := Normalized(p, s.raw.buf[0]))
    case NormEnd => NormExit(s)
    case NormSend => s.(norm := Reading, mid := Push(s.mid, s.norm.item), panicked := s.panicked || s.mid.closed)
    case NormCancel => NormExit(s.(lost := s.lost + [p.enrich(s.norm.item)]))
  }

  function WorkEffect<R, M, O, S>(p: Stages<R, M, O, S>, s: State<R, M, O, S>, step: Step): State<R, M, O, S>
    requires Works(step) && WorkEnabled(p, s, step)
  {
    match step
    case WorkReceive(i) =>
      var o := p.enrich(s.mid.buf[0]);
      if s.cancelled then s.(mid := Pop(s.mid), workers := s.workers[i := Stopped], lost := s.lost + [o])
      else s.(mid := Pop(s.mid), workers := s.workers[i := Holding(o)])
    case WorkEnd(i) => s.(workers := s.workers[i := Stopped])
    case WorkSend(i) =>
      s.(workers := s.workers[i := Idle], out := Push(s.out, s.workers[i].item), panicked := s.panicked || s.out.closed)
    case WorkCancel(i) => s.(workers := s.workers[i := Stopped], lost := s.lost + [s.workers[i].item])
    case CloseOut => s.(enricherDone := true, out := Close(s.out), panicked := s.panicked || s.out.closed)
  }

  function DrainEffect<R, M, O, S>(p: Stages<R, M, O, S>, s: State<R, M, O, S>, step: Step): State<R, M, O, S>
    requires Drains(step) && DrainEnabled(p, s, step)
  {
    match step
    case EngReceive =>
      var o := s.out.buf[0];
      if s.cancelled then EngExit(s.(out := Pop(s.out), lost := s.lost + [o]))
      else s.(out := Pop(s.out), received := s.received + [o], eng := Resume(p.evaluate(s.received, o)))
    case EngEnd => EngExit(s)
    case EngSend =>
      s.(eng := Resume(s.eng.pending[1..]), sigs := Push(s.sigs, s.eng.pending[0]),
         panicked := s.panicked || s.sigs.closed)
    case EngCancel => EngExit(s)
    case Emit => s.(sigs := Pop(s.sigs), delivered := s.delivered + [s.sigs.buf[0]])
    case EmitStop => s.(sigs := Pop(s.sigs), skipped := [s.sigs.buf[0]])
    case Cancel => s.(cancelled := true)
  }

  function Effect<R, M, O, S>(p: Stages<R, M, O, S>, s: State<R, M, O, S>, step: Step): State<R, M, O, S>
    requires Enabled(p, s, step)
  {
    if Feeds(step) then FeedEffect(p, s, step)
    else if Works(step) then WorkEffect(p, s, step)
    else DrainEffect(p, s, step)
  }

  function Next<R, M, O, S>(p: Stages<R, M, O, S>, s: State<R, M, O, S>, step: Step): State<R, M, O, S> {
    if Enabled(p, s, step) then Effect(p, s, step) else s
  }

  function Run<R, M, O, S>(p: Stages<R, M, O, S>, s: State<R, M, O, S>, steps: seq<Step>): State<R, M, O, S> {
    if steps == [] then s else Next(p, Run(p, s, steps[..|steps| - 1]), steps[|steps| - 1])
  }

  // ---------------------------------------------------------------------------------------------------------
  // Accounting
  // ---------------------------------------------------------------------------------------------------------

  /** The enriched events that raw events are worth: one for each that normalizes. */
  function Enriched<R, M, O, S>(p: Stages<R, M, O, S>, rs: seq<R>): seq<O> {
    if rs == [] then [] else EnrichedOne(p, rs[0]) + Enriched(p, rs[1..])
  }

  function EnrichedOne<R, M, O, S>(p: Stages<R, M, O, S>, r: R): seq<O> {
    match p.normalize(r)
    case None => []
    case Some(m) => [p.enrich(m)]
  }

  function EnrichedMid<R, M, O, S>(p: Stages<R, M, O, S>, ms: seq<M>): seq<O> {
    if ms == [] then [] else [p.enrich(ms[0])] + EnrichedMid(p, ms[1..])
  }

  function InNorm<R, M, O, S>(p: Stages<R, M, O, S>, n: Normalizer<M>): seq<O> {
    if n.Sending? then [p.enrich(n.item)] else []
  }

  function InWorker<O>(w: Worker<O>): seq<O> {
    if w.Holding? then [w.item] else []
  }

  /** How often o occurs in s. */
  ghost function Count<T>(s: seq<T>, o: T): nat {
    if s == [] then 0 else (if s[0] == o then 1 else 0) + Count(s[1..], o)
  }

  ghost function CountHeld<O>(ws: seq<Worker<O>>, o: O): nat {
    if ws == [] then 0 else CountHeld(ws[..|ws| - 1], o) + Count(InWorker(ws[|ws| - 1]), o)
  }

  /** How often o is still to come from what has not reached the pool yet. */
  ghost function Upstream<R, M, O, S>(p: Stages<R, M, O, S>, s: State<R, M, O, S>, o: O): nat {
    Count(Enriched(p, s.todo), o) + Count(Enriched(p, s.raw.buf), o) + Count(InNorm(p, s.norm), o)
    + Count(EnrichedMid(p, s.mid.buf), o)
  }

  ghost function Downstream<R, M, O, S>(s: State<R, M, O, S>, o: O): nat {
    CountHeld(s.workers, o) + Count(s.out.buf, o) + Count(s.received, o)
  }

  lemma {:induction false} CountAppend<T>(a: seq<T>, b: seq<T>, o: T)
    ensures Count(a + b, o) == Count(a, o) + Count(b, o)
  {
    if a == [] {
      assert a + b == b;
    } else {
      assert (a + b)[1..] == a[1..] + b;
      CountAppend(a[1..], b, o);
    }
  }

  lemma {:induction false} CountIsMultiplicity<T>(s: seq<T>, o: T)
    ensures Count(s, o) == multiset(s)[o]
  {
    if s != [] {
      assert s == [s[0]] + s[1..];
      CountIsMultiplicity(s[1..], o);
    }
  }

  lemma {:induction false} EnrichedAppend<R, M, O, S>(p: Stages<R, M, O, S>, a: seq<R>, b: seq<R>)
    ensures Enriched(p, a + b) == Enriched(p, a) + Enriched(p, b)
  {
    if a == [] {
      assert a + b == b;
    } else {
      assert (a + b)[1..] == a[1..] + b;
      EnrichedAppend(p, a[1..], b);
    }
  }

  lemma {:induction false} EnrichedMidAppend<R, M, O, S>(p: Stages<R, M, O, S>, a: seq<M>, b: seq<M>)
    ensures EnrichedMid(p, a + b) == EnrichedMid(p, a) + EnrichedMid(p, b)
  {
    if a == [] {
      assert a + b == b;
    } else {
      assert (a + b)[1..] == a[1..] + b;
      EnrichedMidAppend(p, a[1..], b);
    }
  }

  lemma EnrichedSingle<R, M, O, S>(p: Stages<R, M, O, S>, r: R)
    ensures Enriched(p, [r]) == EnrichedOne(p, r)
  {
    assert [r][1..] == [];
  }

  lemma EnrichedMidSingle<R, M, O, S>(p: Stages<R, M, O, S>, m: M)
    ensures EnrichedMid(p, [m]) == [p.enrich(m)]
  {
    assert [m][1..] == [];
  }

  lemma {:induction false} CountHeldUpdate<O>(ws: seq<Worker<O>>, i: nat, w: Worker<O>, o: O)
    requires i < |ws|
    ensures CountHeld(ws[i := w], o) + Count(InWorker(ws[i]), o) == CountHeld(ws, o) + Count(InWorker(w), o)
  {
    hide Count;
    var n := |ws| - 1;
    if i == n {
      assert ws[i := w][..n] == ws[..n];
    } else {
      assert ws[i := w][..n] == ws[..n][i := w];
      CountHeldUpdate(ws[..n], i, w, o);
    }
  }

  /** Moving the first element of one list to the end of another. */
  lemma Moved<R, M, O, S>(p: Stages<R, M, O, S>, from: seq<R>, to: seq<R>, o: O)
    requires from != []
    ensures Count(Enriched(p, from[1..]), o) + Count(Enriched(p, to + [from[0]]), o)
            == Count(Enriched(p, from), o) + Count(Enriched(p, to), o)
    ensures Count(Enriched(p, from), o) == Count(EnrichedOne(p, from[0]), o) + Count(Enriched(p, from[1..]), o)
  {
    hide Count;
    EnrichedAppend(p, to, [from[0]]);
    EnrichedSingle(p, from[0]);
    CountAppend(Enriched(p, to), EnrichedOne(p, from[0]), o);
    CountAppend(EnrichedOne(p, from[0]), Enriched(p, from[1..]), o);
  }

  lemma MovedMid<R, M, O, S>(p: Stages<R, M, O, S>, m: M, to: seq<M>, o: O)
    ensures Count(EnrichedMid(p, to + [m]), o) == Count(EnrichedMid(p, to), o) + Count([p.enrich(m)], o)
    ensures Count(EnrichedMid(p, [m] + to), o) == Count(EnrichedMid(p, to), o) + Count([p.enrich(m)], o)
  {
    hide Count;
    EnrichedMidAppend(p, to, [m]);
    EnrichedMidAppend(p, [m], to);
    EnrichedMidSingle(p, m);
    CountAppend(EnrichedMid(p, to), [p.enrich(m)], o);
    CountAppend([p.enrich(m)], EnrichedMid(p, to), o);
  }

  lemma CountEmpty<T>(o: T)
    ensures Count([], o) == 0
  {
  }

  /** The steps of the producer and the normalizer keep what is upstream, apart from what they lose. */
  lemma UpstreamKept<R, M, O, S>(p: Stages<R, M, O, S>, s: State<R, M, O, S>, step: Step, o: O)
    requires Enabled(p, s, step)
    requires Feeds(step)
    ensures var t := Effect(p, s, step);
            && t.workers == s.workers && t.out == s.out && t.received == s.received
            && Upstream(p, t, o) + Count(t.lost, o) == Upstream(p, s, o) + Count(s.lost, o)
  {
    hide EnrichedMid, CountHeld, Count, Enriched, WorkEffect, WorkEnabled, DrainEffect, DrainEnabled;
    CountEmpty(o);
    match step
    case Accept =>
    case Produce => Moved(p, s.todo, s.raw.buf, o);
    case StopProducing =>
      CountAppend(s.lost, Enriched(p, s.todo), o);
      EnrichedNothing(p);
    case NormReceive => NormReceiveKept(p, s, o);
    case NormEnd =>
    case NormSend => MovedMid(p, s.norm.item, s.mid.buf, o);
    case NormCancel => CountAppend(s.lost, [p.enrich(s.norm.item)], o);
  }

  lemma NormReceiveKept<R, M, O, S>(p: Stages<R, M, O, S>, s: State<R, M, O, S>, o: O)
    requires Enabled(p, s, NormReceive)
    ensures var t := Effect(p, s, NormReceive);
            && t.workers == s.workers && t.out == s.out && t.received == s.received
            && Upstream(p, t, o) + Count(t.lost, o) == Upstream(p, s, o) + Count(s.lost, o)
  {
    hide EnrichedMid, CountHeld, Count, Enriched, WorkEffect, WorkEnabled, DrainEffect, DrainEnabled;
    CountEmpty(o);
    Moved(p, s.raw.buf, [], o);
    CountAppend(s.lost, EnrichedOne(p, s.raw.buf[0]), o);
  }

  lemma EnrichedNothing<R, M, O, S>(p: Stages<R, M, O, S>)
    ensures Enriched(p, []) == [] && EnrichedMid(p, []) == []
  {
  }

  /** What is at the pool or beyond, with what is lost. */
  ghost function Beyond<R, M, O, S>(p: Stages<R, M, O, S>, s: State<R, M, O, S>, o: O): nat {
    Count(EnrichedMid(p, s.mid.buf), o) + Downstream(s, o) + Count(s.lost, o)
  }

  /** The steps of the pool keep the whole, apart from what they lose. */
  lemma PoolKept<R, M, O, S>(p: Stages<R, M, O, S>, s: State<R, M, O, S>, step: Step, o: O)
    requires Enabled(p, s, step) && Works(step)
    ensures var t := Effect(p, s, step);
            && t.todo == s.todo && t.raw == s.raw && t.norm == s.norm
            && Beyond(p, t, o) == Beyond(p, s, o)
  {
    hide EnrichedMid, CountHeld, Count, FeedEffect, FeedEnabled, DrainEffect, DrainEnabled, AllStopped;
    if !step.CloseOut? {
      var t := Effect(p, s, step);
      CountEmpty(o);
      CountHeldUpdate(s.workers, step.i, t.workers[step.i], o);
      match step
      case WorkReceive(_) =>
        var m := s.mid.buf[0];
        assert s.mid.buf == [m] + s.mid.buf[1..];
        MovedMid(p, m, s.mid.buf[1..], o);
        CountAppend(s.lost, [p.enrich(m)], o);
      case WorkEnd(_) =>
      case WorkSend(i) => CountAppend(s.out.buf, [s.workers[i].item], o);
      case WorkCancel(i) => CountAppend(s.lost, [s.workers[i].item], o);
    }
  }

  /** So do the steps of the engine and the emitter. */
  lemma EndKept<R, M, O, S>(p: Stages<R, M, O, S>, s: State<R, M, O, S>, step: Step, o: O)
    requires Enabled(p, s, step) && Drains(step)
    ensures var t := Effect(p, s, step);
            && t.todo == s.todo && t.raw == s.raw && t.norm == s.norm
            && Beyond(p, t, o) == Beyond(p, s, o)
  {
    hide EnrichedMid, CountHeld, Count, FeedEffect, FeedEnabled, WorkEffect, WorkEnabled, Resume;
    if step.EngReceive? {
      assert s.out.buf == [s.out.buf[0]] + s.out.buf[1..];
      CountAppend([s.out.buf[0]], s.out.buf[1..], o);
      CountAppend(s.received, [s.out.buf[0]], o);
      CountAppend(s.lost, [s.out.buf[0]], o);
    }
  }

  /** Every stage that has closed its output has finished sending, and before a cancellation only at the end of
      its input. */
  ghost predicate Protocol<R, M, O, S>(s: State<R, M, O, S>) {
    && !s.panicked
    && (s.norm.Exited? <==> s.mid.closed)
    && (s.enricherDone <==> s.out.closed)
    && (s.enricherDone ==> AllStopped(s.workers))
    && (s.eng.Finished? <==> s.sigs.closed)
    && (s.eng.Emitting? ==> s.eng.pending != [])
    && (s.held ==> s.todo != [] && !s.raw.closed)
    && (!s.cancelled ==>
          && s.lost == [] && s.skipped == []
          && (s.eng.Finished? ==> s.out.closed && s.out.buf == [])
          && (s.raw.closed ==> s.todo == [])
          && (s.norm.Exited? ==> s.raw.closed && s.raw.buf == [])
          && forall i :: 0 <= i < |s.workers| && s.workers[i].Stopped? ==> s.norm.Exited? && s.mid.buf == [])
  }

  lemma ProtocolKept<R, M, O, S>(p: Stages<R, M, O, S>, s: State<R, M, O, S>, step: Step)
    requires Protocol(s)
    ensures Protocol(Next(p, s, step)) && |Next(p, s, step).workers| == |s.workers|
  {
    hide Protocol, Effect;
    if Enabled(p, s, step) {
      if Feeds(step) {
        FeedingKeepsProtocol(p, s, step);
      } else if Works(step) {
        WorkingKeepsProtocol(p, s, step);
      } else {
        DrainingKeepsProtocol(p, s, step);
      }
    }
  }

  lemma FeedingKeepsProtocol<R, M, O, S>(p: Stages<R, M, O, S>, s: State<R, M, O, S>, step: Step)
    requires Protocol(s) && Enabled(p, s, step) && Feeds(step)
    ensures Protocol(Effect(p, s, step)) && |Effect(p, s, step).workers| == |s.workers|
  {
    hide EnrichedOne, AllStopped, WorkEffect, WorkEnabled, DrainEffect, DrainEnabled;
    EnrichedNothing(p);
  }

  lemma WorkingKeepsProtocol<R, M, O, S>(p: Stages<R, M, O, S>, s: State<R, M, O, S>, step: Step)
    requires Protocol(s) && Enabled(p, s, step) && Works(step)
    ensures Protocol(Effect(p, s, step)) && |Effect(p, s, step).workers| == |s.workers|
  {
    hide FeedEffect, FeedEnabled, DrainEffect, DrainEnabled;
  }

  lemma DrainingKeepsProtocol<R, M, O, S>(p: Stages<R, M, O, S>, s: State<R, M, O, S>, step: Step)
    requires Protocol(s) && Enabled(p, s, step) && Drains(step)
    ensures Protocol(Effect(p, s, step)) && |Effect(p, s, step).workers| == |s.workers|
  {
    hide AllStopped, FeedEffect, FeedEnabled, WorkEffect, WorkEnabled;
  }

  /** Every occurrence of o that the inputs are worth is somewhere. */
  ghost predicate Accounted<R, M, O, S>(p: Stages<R, M, O, S>, inputs: seq<R>, s: State<R, M, O, S>, o: O) {
    Count(Enriched(p, inputs), o) == Upstream(p, s, o) + Downstream(s, o) + Count(s.lost, o)
  }

  lemma AccountedKept<R, M, O, S>(p: Stages<R, M, O, S>, inputs: seq<R>, s: State<R, M, O, S>, step: Step, o: O)
    requires Accounted(p, inputs, s, o)
    ensures Accounted(p, inputs, Next(p, s, step), o)
  {
    hide Enriched, EnrichedMid, CountHeld, Count, Enabled, Effect;
    if Enabled(p, s, step) {
      if Feeds(step) {
        UpstreamKept(p, s, step, o);
      } else if Works(step) {
        PoolKept(p, s, step, o);
      } else {
        EndKept(p, s, step, o);
      }
    }
  }

  lemma {:induction false} NothingHeld<O>(ws: seq<Worker<O>>, o: O)
    requires forall i :: 0 <= i < |ws| ==> !ws[i].Holding?
    ensures CountHeld(ws, o) == 0
  {
    if ws != [] {
      NothingHeld(ws[..|ws| - 1], o);
    }
  }

  lemma StartAccounted<R, M, O, S>(p: Stages<R, M, O, S>, inputs: seq<R>, workers: int, o: O)
    ensures Accounted(p, inputs, Start(inputs, workers), o)
  {
    var start: State<R, M, O, S> := Start(inputs, workers);
    NothingHeld(start.workers, o);
  }

  /** In every reachable state nothing was sent on or closed twice. */
  lemma {:induction false} RunProtocol<R, M, O, S>(p: Stages<R, M, O, S>, inputs: seq<R>, workers: int,
                                                   steps: seq<Step>)
    ensures var s := Run(p, Start(inputs, workers), steps);
            Protocol(s) && |s.workers| == if workers <= 0 then 4 else workers
  {
    if steps != [] {
      hide Enabled, Effect;
      var start: State<R, M, O, S> := Start(inputs, workers);
      RunProtocol(p, inputs, workers, steps[..|steps| - 1]);
      ProtocolKept(p, Run(p, start, steps[..|steps| - 1]), steps[|steps| - 1]);
    }
  }

  /** In every reachable state a step that sends finds its channel open, and so does one that closes it. */
  lemma SendsAndClosesAreSafe<R, M, O, S>(p: Stages<R, M, O, S>, inputs: seq<R>, workers: int, steps: seq<Step>,
                                          step: Step)
    requires Enabled(p, Run(p, Start(inputs, workers), steps), step)
    ensures var s := Run(p, Start(inputs, workers), steps);
            && (step.Produce? || step.StopProducing? ==> !s.raw.closed)
            && (step.NormSend? || step.NormEnd? || step.NormCancel? || (step.NormReceive? && s.cancelled) ==>
                  !s.mid.closed)
            && (step.WorkSend? || step.CloseOut? ==> !s.out.closed)
            && (step.EngSend? || step.EngEnd? || step.EngCancel? || (step.EngReceive? && s.cancelled) ==>
                  !s.sigs.closed)
  {
    hide Run;
    RunProtocol(p, inputs, workers, steps);
  }

  /** The flag goes up exactly when a step sends on a closed channel or closes one again. */
  lemma PanicsExactly<R, M, O, S>(p: Stages<R, M, O, S>, s: State<R, M, O, S>, step: Step)
    requires Enabled(p, s, step) && !s.panicked
    ensures Effect(p, s, step).panicked
            <==> || (step.Produce? && s.raw.closed)
                 || ((step.NormSend? || step.NormEnd? || step.NormCancel? || (step.NormReceive? && s.cancelled))
                     && s.mid.closed)
                 || ((step.WorkSend? || step.CloseOut?) && s.out.closed)
                 || ((step.EngSend? || step.EngEnd? || step.EngCancel? || (step.EngReceive? && s.cancelled))
                     && s.sigs.closed)
  {
    hide Enriched, EnrichedOne, Normalized, AllStopped, Resume;
    if Feeds(step) {
      FeedingPanics(p, s, step);
    } else if Works(step) {
      hide FeedEffect, FeedEnabled, DrainEffect, DrainEnabled;
      assert Effect(p, s, step).panicked <==> (step.WorkSend? || step.CloseOut?) && s.out.closed;
    } else {
      hide FeedEffect, FeedEnabled, WorkEffect, WorkEnabled;
      assert Effect(p, s, step).panicked
          <==> (step.EngSend? || step.EngEnd? || step.EngCancel? || (step.EngReceive? && s.cancelled)) && s.sigs.closed;
    }
  }

  lemma FeedingPanics<R, M, O, S>(p: Stages<R, M, O, S>, s: State<R, M, O, S>, step: Step)
    requires Enabled(p, s, step) && !s.panicked && Feeds(step)
    ensures Effect(p, s, step).panicked
            <==> || (step.Produce? && s.raw.closed)
                 || ((step.NormSend? || step.NormEnd? || step.NormCancel? || (step.NormReceive? && s.cancelled))
                     && s.mid.closed)
  {
    hide Enriched, EnrichedOne, Normalized, WorkEffect, WorkEnabled, DrainEffect, DrainEnabled;
  }

  ghost predicate WithinCaps<R, M, O, S>(p: Stages<R, M, O, S>, s: State<R, M, O, S>) {
    |s.raw.buf| <= p.rawCap && |s.mid.buf| <= p.midCap && |s.out.buf| <= p.outCap && |s.sigs.buf| <= p.sigCap
  }

  lemma CapsKept<R, M, O, S>(p: Stages<R, M, O, S>, s: State<R, M, O, S>, step: Step)
    requires WithinCaps(p, s) && Enabled(p, s, step)
    ensures WithinCaps(p, Effect(p, s, step))
  {
    hide Enriched, EnrichedOne, Normalized, AllStopped, Resume;
    if Feeds(step) {
      hide WorkEffect, WorkEnabled, DrainEffect, DrainEnabled;
      assert WithinCaps(p, Effect(p, s, step));
    } else if Works(step) {
      hide FeedEffect, FeedEnabled, DrainEffect, DrainEnabled;
      assert WithinCaps(p, Effect(p, s, step));
    } else {
      hide FeedEffect, FeedEnabled, WorkEffect, WorkEnabled;
      assert WithinCaps(p, Effect(p, s, step));
    }
  }

  /** No channel ever holds more than its capacity. */
  lemma {:induction false} RunWithinCaps<R, M, O, S>(p: Stages<R, M, O, S>, inputs: seq<R>, workers: int,
                                                     steps: seq<Step>)
    ensures WithinCaps(p, Run(p, Start(inputs, workers), steps))
  {
    if steps != [] {
      hide Enabled, Effect, WithinCaps;
      var before: State<R, M, O, S> := Run(p, Start(inputs, workers), steps[..|steps| - 1]);
      RunWithinCaps(p, inputs, workers, steps[..|steps| - 1]);
      if Enabled(p, before, steps[|steps| - 1]) {
        CapsKept(p, before, steps[|steps| - 1]);
      }
    }
  }

  /** In every reachable state every well-formed input is accounted for exactly once. */
  lemma {:induction false} RunAccounted<R, M, O, S>(p: Stages<R, M, O, S>, inputs: seq<R>, workers: int,
                                                    steps: seq<Step>, o: O)
    ensures Accounted(p, inputs, Run(p, Start(inputs, workers), steps), o)
  {
    if steps == [] {
      StartAccounted(p, inputs, workers, o);
    } else {
      hide Accounted, Enabled, Effect;
      var start: State<R, M, O, S> := Start(inputs, workers);
      RunAccounted(p, inputs, workers, steps[..|steps| - 1], o);
      AccountedKept(p, inputs, Run(p, start, steps[..|steps| - 1]), steps[|steps| - 1], o);
    }
  }

  // ---------------------------------------------------------------------------------------------------------
  // The engine's signals
  // ---------------------------------------------------------------------------------------------------------

  /** The signals that the events are worth when the engine processes them in this order. */
  function SignalsOf<R, M, O, S>(p: Stages<R, M, O, S>, os: seq<O>): seq<S> {
    if os == [] then []
    else
      var n := |os| - 1;
      SignalsOf(p, os[..n]) + p.evaluate(os[..n], os[n])
  }

  lemma SignalsSnoc<R, M, O, S>(p: Stages<R, M, O, S>, os: seq<O>, o: O)
    ensures SignalsOf(p, os + [o]) == SignalsOf(p, os) + p.evaluate(os, o)
  {
    assert (os + [o])[..|os|] == os;
  }

  function Pending<S>(e: Engine<S>): seq<S> {
    if e.Emitting? then e.pending else []
  }

  /** The signals of the processed events, in order: delivered, skipped, queued, or pending in the engine.  Only a
      cancelled engine forgets pending ones. */
  ghost predicate InSequence<R, M, O, S>(p: Stages<R, M, O, S>, s: State<R, M, O, S>) {
    var all := SignalsOf(p, s.received);
    && Sent(s) <= all
    && (!s.eng.Finished? || !s.cancelled ==> Sent(s) + Pending(s.eng) == all)
  }

  /** All signals the engine has sent. */
  function Sent<R, M, O, S>(s: State<R, M, O, S>): seq<S> {
    s.delivered + s.skipped + s.sigs.buf
  }

  lemma PendingResumes<S>(pending: seq<S>)
    ensures Pending(Resume(pending)) == pending
  {
  }

  lemma SequenceKept<R, M, O, S>(p: Stages<R, M, O, S>, s: State<R, M, O, S>, step: Step)
    requires InSequence(p, s) && Protocol(s) && Enabled(p, s, step)
    ensures InSequence(p, Effect(p, s, step))
  {
    hide InSequence, Protocol, Enabled, Effect, SameEnd;
    if Feeds(step) {
      FeedingLeavesSequence(p, s, step);
      SameSequence(p, s, Effect(p, s, step));
    } else if Works(step) {
      WorkingLeavesSequence(p, s, step);
      SameSequence(p, s, Effect(p, s, step));
    } else {
      DrainingKeepsSequence(p, s, step);
    }
  }

  lemma FeedingLeavesSequence<R, M, O, S>(p: Stages<R, M, O, S>, s: State<R, M, O, S>, step: Step)
    requires Enabled(p, s, step) && Feeds(step)
    ensures SameEnd(s, Effect(p, s, step))
  {
    hide WorkEffect, WorkEnabled, DrainEffect, DrainEnabled, Enriched, EnrichedOne, Normalized;
  }

  lemma WorkingLeavesSequence<R, M, O, S>(p: Stages<R, M, O, S>, s: State<R, M, O, S>, step: Step)
    requires Enabled(p, s, step) && Works(step)
    ensures SameEnd(s, Effect(p, s, step))
  {
    hide FeedEffect, FeedEnabled, DrainEffect, DrainEnabled, AllStopped;
  }

  /** The engine and the emitter are where they were, with the same events and signals. */
  ghost predicate SameEnd<R, M, O, S>(s: State<R, M, O, S>, t: State<R, M, O, S>) {
    && s.received == t.received && s.eng == t.eng && s.sigs == t.sigs && s.delivered == t.delivered
    && s.skipped == t.skipped && s.cancelled == t.cancelled
  }

  lemma SameSequence<R, M, O, S>(p: Stages<R, M, O, S>, s: State<R, M, O, S>, t: State<R, M, O, S>)
    requires InSequence(p, s) && SameEnd(s, t)
    ensures InSequence(p, t)
  {
  }

  lemma DrainingKeepsSequence<R, M, O, S>(p: Stages<R, M, O, S>, s: State<R, M, O, S>, step: Step)
    requires InSequence(p, s) && Protocol(s) && Enabled(p, s, step) && Drains(step)
    ensures InSequence(p, Effect(p, s, step))
  {
    hide SignalsOf, FeedEffect, FeedEnabled, WorkEffect, WorkEnabled, Protocol;
    match step
    case EngReceive => EngReceiveKeepsSequence(p, s);
    case EngSend => EngSendKeepsSequence(p, s);
    case Emit =>
      assert s.sigs.buf == [s.sigs.buf[0]] + s.sigs.buf[1..];
      assert Sent(Effect(p, s, Emit)) == Sent(s);
    case EmitStop =>
      assert s.sigs.buf == [s.sigs.buf[0]] + s.sigs.buf[1..];
      assert Sent(Effect(p, s, EmitStop)) == Sent(s);
    case _ =>
  }

  lemma EngReceiveKeepsSequence<R, M, O, S>(p: Stages<R, M, O, S>, s: State<R, M, O, S>)
    requires InSequence(p, s) && Protocol(s) && Enabled(p, s, EngReceive)
    ensures InSequence(p, Effect(p, s, EngReceive))
  {
    hide SignalsOf, AllStopped, Resume, Pending, FeedEffect, FeedEnabled, WorkEffect, WorkEnabled;
    SignalsSnoc(p, s.received, s.out.buf[0]);
    PendingResumes(p.evaluate(s.received, s.out.buf[0]));
    NothingPending(s.eng);
  }

  lemma NothingPending<S>(e: Engine<S>)
    requires e.Waiting?
    ensures Pending(e) == []
    ensures forall pending: seq<S> :: !Resume(pending).Finished?
  {
  }

  lemma EngSendKeepsSequence<R, M, O, S>(p: Stages<R, M, O, S>, s: State<R, M, O, S>)
    requires InSequence(p, s) && Protocol(s) && Enabled(p, s, EngSend)
    ensures InSequence(p, Effect(p, s, EngSend))
  {
    EngSendMovesFirst(p, s);
    hide SignalsOf, Protocol, Enabled, Effect, Pending, Sent;
    var pending := Pending(s.eng);
    assert Sent(s) + pending == (Sent(s) + [pending[0]]) + pending[1..];
  }

  /** The first pending signal joins those sent, and the others stay pending. */
  lemma EngSendMovesFirst<R, M, O, S>(p: Stages<R, M, O, S>, s: State<R, M, O, S>)
    requires Enabled(p, s, EngSend)
    ensures var t := Effect(p, s, EngSend);
            && t.received == s.received && !s.eng.Finished? && !t.eng.Finished? && t.cancelled == s.cancelled
            && Pending(s.eng) != [] && Sent(t) == Sent(s) + [Pending(s.eng)[0]] && Pending(t.eng) == Pending(s.eng)[1..]
  {
    hide AllStopped, FeedEffect, FeedEnabled, WorkEffect, WorkEnabled;
    PendingResumes(s.eng.pending[1..]);
  }

  /** In every reachable state the emitter has the engine's first signals, in order. */
  lemma {:induction false} RunInSequence<R, M, O, S>(p: Stages<R, M, O, S>, inputs: seq<R>, workers: int,
                                                     steps: seq<Step>)
    ensures InSequence(p, Run(p, Start(inputs, workers), steps))
  {
    if steps != [] {
      hide InSequence, Enabled, Effect;
      var before: State<R, M, O, S> := Run(p, Start(inputs, workers), steps[..|steps| - 1]);
      RunInSequence(p, inputs, workers, steps[..|steps| - 1]);
      RunProtocol(p, inputs, workers, steps[..|steps| - 1]);
      if Enabled(p, before, steps[|steps| - 1]) {
        SequenceKept(p, before, steps[|steps| - 1]);
      }
    }
  }

  // ---------------------------------------------------------------------------------------------------------
  // Cancellation
  // ---------------------------------------------------------------------------------------------------------

  /** The normalizer, a worker or the engine takes an event from its channel. */
  predicate Receives(step: Step) {
    step.NormReceive? || step.WorkReceive? || step.EngReceive?
  }

  function Running<O>(ws: seq<Worker<O>>): nat {
    if ws == [] then 0 else Running(ws[..|ws| - 1]) + Bit(!ws[|ws| - 1].Stopped?)
  }

  /** How many of the normalizer, the workers and the engine have not returned. */
  function Live<R, M, O, S>(s: State<R, M, O, S>): nat {
    Bit(!s.norm.Exited?) + Running(s.workers) + Bit(!s.eng.Finished?)
  }

  /** How many events they take while the steps happen. */
  function ReceivedIn<R, M, O, S>(p: Stages<R, M, O, S>, s: State<R, M, O, S>, steps: seq<Step>): nat {
    if steps == [] then 0
    else
      var n := |steps| - 1;
      ReceivedIn(p, s, steps[..n]) + Bit(Receives(steps[n]) && Enabled(p, Run(p, s, steps[..n]), steps[n]))
  }

  lemma {:induction false} RunningUpdate<O>(ws: seq<Worker<O>>, i: nat, w: Worker<O>)
    requires i < |ws|
    ensures Running(ws[i := w]) + Bit(!ws[i].Stopped?) == Running(ws) + Bit(!w.Stopped?)
  {
    var n := |ws| - 1;
    if i == n {
      assert ws[i := w][..n] == ws[..n];
    } else {
      assert ws[i := w][..n] == ws[..n][i := w];
      RunningUpdate(ws[..n], i, w);
    }
  }

  /** Once cancelled, whoever takes an event returns, and nobody starts again. */
  lemma CancelledStep<R, M, O, S>(p: Stages<R, M, O, S>, s: State<R, M, O, S>, step: Step)
    requires s.cancelled && Enabled(p, s, step)
    ensures var t := Effect(p, s, step); t.cancelled && Live(t) + Bit(Receives(step)) <= Live(s)
  {
    hide Running, Enriched, EnrichedOne, AllStopped;
    if Feeds(step) {
      hide WorkEffect, WorkEnabled, DrainEffect, DrainEnabled;
      assert Live(Effect(p, s, step)) + Bit(Receives(step)) <= Live(s);
    } else if Works(step) {
      hide FeedEffect, FeedEnabled, DrainEffect, DrainEnabled;
      if !step.CloseOut? {
        RunningUpdate(s.workers, step.i, Effect(p, s, step).workers[step.i]);
      }
      assert Live(Effect(p, s, step)) + Bit(Receives(step)) <= Live(s);
    } else {
      hide FeedEffect, FeedEnabled, WorkEffect, WorkEnabled;
      assert Live(Effect(p, s, step)) + Bit(Receives(step)) <= Live(s);
    }
  }

  /** Cancellation takes hold: from then on, in every run, the normalizer, the workers and the engine together take
      at most one event for each of them that has not returned. */
  lemma {:induction false} CancellationTakesHold<R, M, O, S>(p: Stages<R, M, O, S>, s: State<R, M, O, S>,
                                                             steps: seq<Step>)
    requires s.cancelled
    ensures var t := Run(p, s, steps); t.cancelled && ReceivedIn(p, s, steps) + Live(t) <= Live(s)
  {
    if steps != [] {
      hide Live, Enabled, Effect, Receives;
      var n := |steps| - 1;
      CancellationTakesHold(p, s, steps[..n]);
      if Enabled(p, Run(p, s, steps[..n]), steps[n]) {
        CancelledStep(p, Run(p, s, steps[..n]), steps[n]);
      }
    }
  }

  // ---------------------------------------------------------------------------------------------------------
  // Termination
  // ---------------------------------------------------------------------------------------------------------

  /** An event yields at most `most` signals, as it does with finitely many rules and correlations. */
  ghost predicate Bounded<R, M, O(!new), S>(p: Stages<R, M, O, S>, most: nat) {
    forall before, o :: |p.evaluate(before, o)| <= most
  }

  function Times(n: nat, weight: nat): nat {
    if n == 0 then 0 else Times(n - 1, weight) + weight
  }

  function WorkerWeight<O>(w: Worker<O>, k: nat): nat {
    match w case Idle => 1 case Holding(_) => k + 2 case Stopped => 0
  }

  function WorkersWeight<O>(ws: seq<Worker<O>>, k: nat): nat {
    if ws == [] then 0 else WorkersWeight(ws[..|ws| - 1], k) + WorkerWeight(ws[|ws| - 1], k)
  }

  function Bit(b: bool): nat {
    if b then 1 else 0
  }

  function FeedWeight<R, M, O, S>(s: State<R, M, O, S>, k: nat): nat {
    Times(|s.todo|, k + 6) + Bit(!s.held) + Bit(!s.raw.closed) + Times(|s.raw.buf|, k + 4)
    + (match s.norm case Reading => 1 case Sending(_) => k + 4 case Exited => 0)
  }

  function PoolWeight<R, M, O, S>(s: State<R, M, O, S>, k: nat): nat {
    Times(|s.mid.buf|, k + 2) + WorkersWeight(s.workers, k) + Bit(!s.enricherDone) + Times(|s.out.buf|, k)
  }

  function DrainWeight<R, M, O, S>(s: State<R, M, O, S>): nat {
    (match s.eng case Waiting => 1 case Emitting(pending) => 1 + 2 * |pending| case Finished => 0) + |s.sigs.buf|
    + Bit(|s.skipped| == 0) + Bit(!s.cancelled)
  }

  /** How far each event and signal still has to go, when an event that reaches the engine weighs k, and how many
      goroutines still have to return. */
  function Remaining<R, M, O, S>(s: State<R, M, O, S>, k: nat): nat {
    FeedWeight(s, k) + PoolWeight(s, k) + DrainWeight(s)
  }

  lemma {:induction false} WorkersWeightUpdate<O>(ws: seq<Worker<O>>, i: nat, w: Worker<O>, k: nat)
    requires i < |ws|
    ensures WorkersWeight(ws[i := w], k) + WorkerWeight(ws[i], k) == WorkersWeight(ws, k) + WorkerWeight(w, k)
  {
    var n := |ws| - 1;
    if i == n {
      assert ws[i := w][..n] == ws[..n];
    } else {
      assert ws[i := w][..n] == ws[..n][i := w];
      WorkersWeightUpdate(ws[..n], i, w, k);
    }
  }

  lemma ProducingProgresses<R, M, O, S>(p: Stages<R, M, O, S>, s: State<R, M, O, S>, step: Step, k: nat)
    requires Enabled(p, s, step) && (step.Accept? || step.Produce? || step.StopProducing?)
    ensures Remaining(Effect(p, s, step), k) < Remaining(s, k)
  {
    hide Enriched, FeedWeight, PoolWeight, DrainWeight, WorkEffect, WorkEnabled, DrainEffect, DrainEnabled;
    var t := Effect(p, s, step);
    SamePool(s, t, k);
    SameDrain(s, t);
    match step
    case Accept => AcceptingWeighsLess(s, t, k);
    case Produce => ProducingWeighsLess(s, t, k);
    case StopProducing => StoppingWeighsLess(s, t, k);
  }

  lemma AcceptingWeighsLess<R, M, O, S>(s: State<R, M, O, S>, t: State<R, M, O, S>, k: nat)
    requires s.todo == t.todo && !s.held && t.held && s.raw == t.raw && s.norm == t.norm
    ensures FeedWeight(t, k) < FeedWeight(s, k)
  {
    hide Times;
  }

  lemma ProducingWeighsLess<R, M, O, S>(s: State<R, M, O, S>, t: State<R, M, O, S>, k: nat)
    requires s.held && !t.held && s.raw.closed == t.raw.closed && s.norm == t.norm
    requires s.todo != [] && t.todo == s.todo[1..] && |t.raw.buf| == |s.raw.buf| + 1
    ensures FeedWeight(t, k) < FeedWeight(s, k)
  {
    hide Times;
    OneLess(|s.todo|, k + 6);
    OneLess(|t.raw.buf|, k + 4);
  }

  lemma StoppingWeighsLess<R, M, O, S>(s: State<R, M, O, S>, t: State<R, M, O, S>, k: nat)
    requires t.todo == [] && s.held == t.held && s.raw.buf == t.raw.buf && !s.raw.closed && t.raw.closed
    requires s.norm == t.norm
    ensures FeedWeight(t, k) < FeedWeight(s, k)
  {
    hide Times;
    Fewer(|s.todo|, k + 6);
  }

  lemma NormExitProgresses<R, M, O, S>(p: Stages<R, M, O, S>, s: State<R, M, O, S>, step: Step, k: nat)
    requires Enabled(p, s, step) && (step.NormEnd? || step.NormCancel?)
    ensures Remaining(Effect(p, s, step), k) < Remaining(s, k)
  {
    hide Times, PoolWeight, DrainWeight, WorkEffect, WorkEnabled, DrainEffect, DrainEnabled;
    var t := Effect(p, s, step);
    SamePool(s, t, k);
    SameDrain(s, t);
  }

  lemma NormReceiveProgresses<R, M, O, S>(p: Stages<R, M, O, S>, s: State<R, M, O, S>, k: nat)
    requires Enabled(p, s, NormReceive)
    ensures Remaining(Effect(p, s, NormReceive), k) < Remaining(s, k)
  {
    hide EnrichedOne, Normalized, FeedWeight, PoolWeight, DrainWeight;
    hide WorkEffect, WorkEnabled, DrainEffect, DrainEnabled;
    var t := Effect(p, s, NormReceive);
    SamePool(s, t, k);
    SameDrain(s, t);
    ReceivingWeighsLess(s, t, k);
  }

  lemma ReceivingWeighsLess<R, M, O, S>(s: State<R, M, O, S>, t: State<R, M, O, S>, k: nat)
    requires s.todo == t.todo && s.held == t.held && s.raw.closed == t.raw.closed && s.norm.Reading?
    requires s.raw.buf != [] && t.raw.buf == s.raw.buf[1..]
    ensures FeedWeight(t, k) < FeedWeight(s, k)
  {
    hide Times;
    OneLess(|s.raw.buf|, k + 4);
  }

  lemma NormSendProgresses<R, M, O, S>(p: Stages<R, M, O, S>, s: State<R, M, O, S>, k: nat)
    requires Enabled(p, s, NormSend)
    ensures Remaining(Effect(p, s, NormSend), k) < Remaining(s, k)
  {
    hide Times, DrainWeight, WorkersWeight, WorkEffect, WorkEnabled, DrainEffect, DrainEnabled;
    var t := Effect(p, s, NormSend);
    SameDrain(s, t);
    OneLess(|t.mid.buf|, k + 2);
  }

  lemma WorkingProgresses<R, M, O, S>(p: Stages<R, M, O, S>, s: State<R, M, O, S>, step: Step, k: nat)
    requires Enabled(p, s, step) && Works(step)
    ensures Remaining(Effect(p, s, step), k) < Remaining(s, k)
  {
    hide Remaining, Effect, Enabled;
    match step
    case WorkReceive(i) => WorkReceiveProgresses(p, s, i, k);
    case WorkEnd(i) => WorkEndProgresses(p, s, i, k);
    case WorkSend(i) => WorkSendProgresses(p, s, i, k);
    case WorkCancel(i) => WorkCancelProgresses(p, s, i, k);
    case CloseOut => CloseOutProgresses(p, s, k);
  }

  lemma WorkReceiveProgresses<R, M, O, S>(p: Stages<R, M, O, S>, s: State<R, M, O, S>, i: nat, k: nat)
    requires Enabled(p, s, WorkReceive(i))
    ensures Remaining(Effect(p, s, WorkReceive(i)), k) < Remaining(s, k)
  {
    hide FeedWeight, PoolWeight, DrainWeight, FeedEffect, FeedEnabled, DrainEffect, DrainEnabled, AllStopped;
    var t := Effect(p, s, WorkReceive(i));
    SameFeed(s, t, k);
    SameDrain(s, t);
    PoolTakes(s, t, i, k);
  }

  lemma WorkEndProgresses<R, M, O, S>(p: Stages<R, M, O, S>, s: State<R, M, O, S>, i: nat, k: nat)
    requires Enabled(p, s, WorkEnd(i))
    ensures Remaining(Effect(p, s, WorkEnd(i)), k) < Remaining(s, k)
  {
    hide FeedWeight, PoolWeight, DrainWeight, FeedEffect, FeedEnabled, DrainEffect, DrainEnabled, AllStopped;
    var t := Effect(p, s, WorkEnd(i));
    SameFeed(s, t, k);
    SameDrain(s, t);
    WorkerStops(s, t, i, k);
  }

  lemma WorkSendProgresses<R, M, O, S>(p: Stages<R, M, O, S>, s: State<R, M, O, S>, i: nat, k: nat)
    requires Enabled(p, s, WorkSend(i))
    ensures Remaining(Effect(p, s, WorkSend(i)), k) < Remaining(s, k)
  {
    hide FeedWeight, PoolWeight, DrainWeight, FeedEffect, FeedEnabled, DrainEffect, DrainEnabled, AllStopped;
    var t := Effect(p, s, WorkSend(i));
    SameFeed(s, t, k);
    SameDrain(s, t);
    PoolGives(s, t, i, k);
  }

  lemma WorkCancelProgresses<R, M, O, S>(p: Stages<R, M, O, S>, s: State<R, M, O, S>, i: nat, k: nat)
    requires Enabled(p, s, WorkCancel(i))
    ensures Remaining(Effect(p, s, WorkCancel(i)), k) < Remaining(s, k)
  {
    hide FeedWeight, PoolWeight, DrainWeight, FeedEffect, FeedEnabled, DrainEffect, DrainEnabled, AllStopped;
    var t := Effect(p, s, WorkCancel(i));
    SameFeed(s, t, k);
    SameDrain(s, t);
    WorkerStops(s, t, i, k);
  }

  lemma CloseOutProgresses<R, M, O, S>(p: Stages<R, M, O, S>, s: State<R, M, O, S>, k: nat)
    requires Enabled(p, s, CloseOut)
    ensures Remaining(Effect(p, s, CloseOut), k) < Remaining(s, k)
  {
    hide FeedWeight, PoolWeight, DrainWeight, FeedEffect, FeedEnabled, DrainEffect, DrainEnabled, AllStopped;
    var t := Effect(p, s, CloseOut);
    SameFeed(s, t, k);
    SameDrain(s, t);
    PoolCloses(s, t, k);
  }

  lemma PoolTakes<R, M, O, S>(s: State<R, M, O, S>, t: State<R, M, O, S>, i: nat, k: nat)
    requires i < |s.workers| && s.workers[i].Idle? && s.mid.buf != [] && t.mid.buf == s.mid.buf[1..]
    requires |s.workers| == |t.workers| && t.workers == s.workers[i := t.workers[i]]
    requires s.enricherDone == t.enricherDone && s.out == t.out
    ensures PoolWeight(t, k) < PoolWeight(s, k)
  {
    hide WorkersWeight, Times;
    OneLess(|s.mid.buf|, k + 2);
    WorkersWeightUpdate(s.workers, i, t.workers[i], k);
  }

  lemma WorkerStops<R, M, O, S>(s: State<R, M, O, S>, t: State<R, M, O, S>, i: nat, k: nat)
    requires i < |s.workers| && !s.workers[i].Stopped? && t.workers == s.workers[i := Stopped]
    requires s.mid.buf == t.mid.buf && s.enricherDone == t.enricherDone && s.out == t.out
    ensures PoolWeight(t, k) < PoolWeight(s, k)
  {
    hide WorkersWeight, Times;
    WorkersWeightUpdate(s.workers, i, Stopped, k);
  }

  lemma PoolGives<R, M, O, S>(s: State<R, M, O, S>, t: State<R, M, O, S>, i: nat, k: nat)
    requires i < |s.workers| && s.workers[i].Holding? && t.workers == s.workers[i := Idle]
    requires s.mid.buf == t.mid.buf && s.enricherDone == t.enricherDone && |t.out.buf| == |s.out.buf| + 1
    ensures PoolWeight(t, k) < PoolWeight(s, k)
  {
    hide WorkersWeight, Times;
    OneLess(|t.out.buf|, k);
    WorkersWeightUpdate(s.workers, i, Idle, k);
  }

  lemma PoolCloses<R, M, O, S>(s: State<R, M, O, S>, t: State<R, M, O, S>, k: nat)
    requires s.workers == t.workers && s.mid.buf == t.mid.buf && s.out.buf == t.out.buf
    requires !s.enricherDone && t.enricherDone
    ensures PoolWeight(t, k) < PoolWeight(s, k)
  {
  }

  lemma ReceivingProgresses<R, M, O(!new), S>(p: Stages<R, M, O, S>, most: nat, s: State<R, M, O, S>)
    requires Enabled(p, s, EngReceive) && Bounded(p, most)
    ensures Remaining(Effect(p, s, EngReceive), 2 * most + 1) < Remaining(s, 2 * most + 1)
  {
    hide WorkersWeight, Times, FeedWeight, FeedEffect, FeedEnabled, WorkEffect, WorkEnabled;
    SameFeed(s, Effect(p, s, EngReceive), 2 * most + 1);
    OneLess(|s.out.buf|, 2 * most + 1);
    assert |p.evaluate(s.received, s.out.buf[0])| <= most;
  }

  lemma DrainingProgresses<R, M, O, S>(p: Stages<R, M, O, S>, s: State<R, M, O, S>, step: Step, k: nat)
    requires Enabled(p, s, step) && Drains(step) && !step.EngReceive?
    ensures Remaining(Effect(p, s, step), k) < Remaining(s, k)
  {
    hide FeedWeight, PoolWeight, DrainWeight, Enabled, Effect;
    var t := Effect(p, s, step);
    if step.EngSend? || step.EngEnd? || step.EngCancel? {
      EngineWeighsLess(p, s, step);
    } else {
      EmitterWeighsLess(p, s, step);
    }
    SameFeed(s, t, k);
    SamePool(s, t, k);
  }

  /** The stages before the engine are where they were. */
  ghost predicate SameStart<R, M, O, S>(s: State<R, M, O, S>, t: State<R, M, O, S>) {
    && s.todo == t.todo && s.held == t.held && s.raw == t.raw && s.norm == t.norm
    && s.mid == t.mid && s.workers == t.workers && s.enricherDone == t.enricherDone && s.out == t.out
  }

  lemma EngineWeighsLess<R, M, O, S>(p: Stages<R, M, O, S>, s: State<R, M, O, S>, step: Step)
    requires Enabled(p, s, step) && (step.EngSend? || step.EngEnd? || step.EngCancel?)
    ensures DrainWeight(Effect(p, s, step)) < DrainWeight(s) && SameStart(s, Effect(p, s, step))
  {
    hide FeedEffect, FeedEnabled, WorkEffect, WorkEnabled;
  }

  lemma EmitterWeighsLess<R, M, O, S>(p: Stages<R, M, O, S>, s: State<R, M, O, S>, step: Step)
    requires Enabled(p, s, step) && (step.Emit? || step.EmitStop? || step.Cancel?)
    ensures DrainWeight(Effect(p, s, step)) < DrainWeight(s) && SameStart(s, Effect(p, s, step))
  {
    hide FeedEffect, FeedEnabled, WorkEffect, WorkEnabled;
  }

  lemma SameFeed<R, M, O, S>(s: State<R, M, O, S>, t: State<R, M, O, S>, k: nat)
    requires s.todo == t.todo && s.held == t.held && s.raw == t.raw && s.norm == t.norm
    ensures FeedWeight(s, k) == FeedWeight(t, k)
  {
  }

  lemma SamePool<R, M, O, S>(s: State<R, M, O, S>, t: State<R, M, O, S>, k: nat)
    requires s.mid.buf == t.mid.buf && s.workers == t.workers && s.enricherDone == t.enricherDone && s.out == t.out
    ensures PoolWeight(s, k) == PoolWeight(t, k)
  {
  }

  lemma SameDrain<R, M, O, S>(s: State<R, M, O, S>, t: State<R, M, O, S>)
    requires s.eng == t.eng && s.sigs == t.sigs && s.skipped == t.skipped && s.cancelled == t.cancelled
    ensures DrainWeight(s) == DrainWeight(t)
  {
  }

  /** Every step that happens brings the end closer, so no run goes on forever. */
  lemma EveryStepProgresses<R, M, O(!new), S>(p: Stages<R, M, O, S>, most: nat, s: State<R, M, O, S>, step: Step)
    requires Enabled(p, s, step) && Bounded(p, most)
    ensures Remaining(Effect(p, s, step), 2 * most + 1) < Remaining(s, 2 * most + 1)
  {
    hide Remaining, Effect, Enabled, Bounded;
    var k := 2 * most + 1;
    if Works(step) {
      WorkingProgresses(p, s, step, k);
    } else if step.NormReceive? {
      NormReceiveProgresses(p, s, k);
    } else if step.NormSend? {
      NormSendProgresses(p, s, k);
    } else if step.NormEnd? || step.NormCancel? {
      NormExitProgresses(p, s, step, k);
    } else if Feeds(step) {
      ProducingProgresses(p, s, step, k);
    } else if step.EngReceive? {
      ReceivingProgresses(p, most, s);
    } else {
      DrainingProgresses(p, s, step, k);
    }
  }

  lemma OneLess(n: nat, weight: nat)
    requires n > 0
    ensures Times(n, weight) == Times(n - 1, weight) + weight
  {
  }

  lemma Fewer(n: nat, weight: nat)
    ensures Times(0, weight) == 0 <= Times(n, weight)
  {
  }

  /** Each step is enabled when its turn comes. */
  ghost predicate AllHappen<R, M, O, S>(p: Stages<R, M, O, S>, s: State<R, M, O, S>, steps: seq<Step>) {
    steps == [] ||
    var n := |steps| - 1;
    AllHappen(p, s, steps[..n]) && Enabled(p, Run(p, s, steps[..n]), steps[n])
  }

  /** Every run ends: no more steps can happen than remain at its start. */
  lemma {:induction false} RunsEnd<R, M, O(!new), S>(p: Stages<R, M, O, S>, most: nat, s: State<R, M, O, S>,
                                                     steps: seq<Step>)
    requires AllHappen(p, s, steps) && Bounded(p, most)
    ensures |steps| + Remaining(Run(p, s, steps), 2 * most + 1) <= Remaining(s, 2 * most + 1)
  {
    if steps != [] {
      hide Enabled, Effect, Remaining, Bounded;
      var n := |steps| - 1;
      RunsEnd(p, most, s, steps[..n]);
      EveryStepProgresses(p, most, Run(p, s, steps[..n]), steps[n]);
    }
  }

  /** Nothing is left to do but to cancel. */
  ghost predicate Quiet<R, M, O, S>(p: Stages<R, M, O, S>, s: State<R, M, O, S>) {
    forall step :: Enabled(p, s, step) ==> step.Cancel?
  }

  ghost predicate Buffered<R, M, O, S>(p: Stages<R, M, O, S>) {
    p.rawCap > 0 && p.midCap > 0 && p.outCap > 0 && p.sigCap > 0
  }

  /** No deadlock: when nothing can move, every stage has returned and closed its output; only a cancelled producer
      may be stuck with an event it cannot hand on. */
  lemma QuietMeansDone<R, M, O, S>(p: Stages<R, M, O, S>, s: State<R, M, O, S>)
    requires Buffered(p) && |s.workers| > 0 && Protocol(s) && Quiet(p, s)
    ensures s.norm.Exited? && AllStopped(s.workers) && s.out.closed && s.eng.Finished?
    ensures !s.cancelled ==> s.raw.closed && s.out.buf == [] && s.sigs.buf == []
  {
    QuietDownstream(p, s);
    forall i | 0 <= i < |s.workers|
      ensures s.workers[i].Stopped? || (s.workers[i].Idle? && s.mid.buf == [] && !s.mid.closed)
    {
      assert !Enabled(p, s, WorkReceive(i)) && !Enabled(p, s, WorkEnd(i)) && !Enabled(p, s, WorkSend(i));
      assert !Enabled(p, s, WorkCancel(i));
    }
    assert s.cancelled || s.mid.buf == [] by { assert s.workers[0].Stopped? || s.mid.buf == []; }
    assert !s.norm.Sending? by { assert !Enabled(p, s, NormSend) && !Enabled(p, s, NormCancel); }
    assert s.norm.Exited? || (s.raw.buf == [] && !s.raw.closed) by {
      assert !Enabled(p, s, NormReceive) && !Enabled(p, s, NormEnd);
    }
    assert s.norm.Exited? by {
      assert !Enabled(p, s, Accept) && !Enabled(p, s, Produce) && !Enabled(p, s, StopProducing);
    }
    assert s.enricherDone by { assert !Enabled(p, s, CloseOut); }
    assert !Enabled(p, s, EngReceive) && !Enabled(p, s, EngEnd);
  }

  /** When nothing can move, the engine is not stuck, and no events wait for it unless it is gone. */
  lemma QuietDownstream<R, M, O, S>(p: Stages<R, M, O, S>, s: State<R, M, O, S>)
    requires Buffered(p) && Protocol(s) && Quiet(p, s)
    ensures !s.cancelled ==> s.sigs.buf == [] && s.out.buf == []
    ensures !s.eng.Emitting?
  {
    assert !s.cancelled ==> s.sigs.buf == [] by { assert !Enabled(p, s, Emit); }
    assert !s.eng.Emitting? by { assert !Enabled(p, s, EngSend) && !Enabled(p, s, EngCancel); }
    assert s.eng.Finished? || s.out.buf == [] by { assert !Enabled(p, s, EngReceive); }
  }

  lemma QuietReceived<R, M, O, S>(p: Stages<R, M, O, S>, inputs: seq<R>, s: State<R, M, O, S>, o: O)
    requires Accounted(p, inputs, s, o) && Protocol(s) && !s.cancelled && |s.workers| > 0
    requires s.raw.closed && s.norm.Exited? && AllStopped(s.workers) && s.out.buf == []
    ensures Count(s.received, o) == Count(Enriched(p, inputs), o)
  {
    NothingHeld(s.workers, o);
    assert s.workers[0].Stopped?;
  }

  /** Pipeline conservation: over every interleaving nothing is sent on or closed twice; the events the engine
      processed are part of the enriched, normalized, well-formed inputs, each at most once; and the emitter was
      delivered the first of the signals those events are worth, in order.  Every run that has gone quiet has closed
      all stages, and without cancellation the engine has processed all inputs and the emitter has all signals. */
  lemma {:induction false} PipelineConservation<R, M, O, S>(p: Stages<R, M, O, S>, inputs: seq<R>, workers: int,
                                                            steps: seq<Step>)
    ensures var s := Run(p, Start(inputs, workers), steps);
            && !s.panicked
            && multiset(s.received) <= multiset(Enriched(p, inputs))
            && s.delivered <= SignalsOf(p, s.received)
            && (Buffered(p) && Quiet(p, s) ==>
                  && s.mid.closed && s.out.closed && s.sigs.closed
                  && (!s.cancelled ==>
                        && multiset(s.received) == multiset(Enriched(p, inputs))
                        && s.delivered == SignalsOf(p, s.received)))
  {
    hide Run, Enriched, Accounted, Count, SignalsOf, Quiet;
    var s: State<R, M, O, S> := Run(p, Start(inputs, workers), steps);
    RunProtocol(p, inputs, workers, steps);
    RunInSequence(p, inputs, workers, steps);
    var done := Buffered(p) && Quiet(p, s);
    if done {
      QuietMeansDone(p, s);
    }
    var a, b := multiset(s.received), multiset(Enriched(p, inputs));
    forall o: O
      ensures a[o] <= b[o]
    {
      RunAccounted(p, inputs, workers, steps, o);
      AccountedBounds(p, inputs, s, o);
      CountIsMultiplicity(s.received, o);
      CountIsMultiplicity(Enriched(p, inputs), o);
    }
    Included(a, b);
    if done && !s.cancelled {
      forall o: O
        ensures b[o] <= a[o]
      {
        RunAccounted(p, inputs, workers, steps, o);
        QuietReceived(p, inputs, s, o);
        CountIsMultiplicity(s.received, o);
        CountIsMultiplicity(Enriched(p, inputs), o);
      }
      Included(b, a);
    }
  }

  lemma Included<O>(a: multiset<O>, b: multiset<O>)
    requires forall o: O :: a[o] <= b[o]
    ensures a <= b
  {
  }

  lemma AccountedBounds<R, M, O, S>(p: Stages<R, M, O, S>, inputs: seq<R>, s: State<R, M, O, S>, o: O)
    requires Accounted(p, inputs, s, o)
    ensures Count(s.received, o) <= Count(Enriched(p, inputs), o)
  {
  }
}
