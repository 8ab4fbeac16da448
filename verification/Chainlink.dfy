/** The Chainlink price provider under concurrent callers.  A call is several critical sections with remote requests
    in between, so the calls of several workers interleave; the clock only moves forward. */
module Chainlink {
  import opened Sequences

  /** A round as the feed reports it; times are in nanoseconds. */
  datatype Round = Round(answer: int, updatedAt: int)

  /** What the feeds answered: decimals and rounds really fetched, and for which feed. */
  datatype Answers = Answers(decimals: set<(string, nat)>, rounds: set<(string, Round)>)

  /** Where a price came from: the round and decimals it was computed from, when the round passed the staleness
      check and when the price was stored. */
  datatype Origin = Origin(round: Round, decimals: nat, checkedAt: int, storedAt: int)

  datatype Cached = Cached(price: real, expiresAt: int, origin: Origin)

  /** Where a call stands.  A call that has failed or returned is over. */
  datatype Call =
    | ReadCache(feed: string)
    | ReadDecimals(feed: string)
    | FetchDecimals(feed: string)
    | StoreDecimals(feed: string, decimals: nat)
    | FetchRound(feed: string, decimals: nat)
    | CheckRound(feed: string, decimals: nat, round: Round)
    | StorePrice(feed: string, price: real, origin: Origin)
    | Returned(feed: string, price: real, origin: Origin, at: int, hit: bool)
    | Failed(feed: string)

  datatype Config = Config(cacheTtl: int, stalenessThreshold: int)

  datatype State = State(
    now: int,
    cache: map<string, Cached>,
    decimals: map<string, nat>,
    calls: seq<Call>,
    answers: Answers)

  /** A step of the environment or the next section of call number `id`; `round` and `value` are what the feed
      answers, if it does. */
  datatype Step =
    | Tick(to: int)
    | Begin(feed: string)
    | Advance(id: nat, value: Option<nat>, round: Option<Round>)

  const START: State := State(0, map[], map[], [], Answers({}, {}))

  function Pow10(n: nat): (r: real)
    ensures r > 0.0
  {
    if n == 0 then 1.0 else 10.0 * Pow10(n - 1)
  }

  /** Powers of ten. */
  lemma {:induction false} TensMultiply(a: nat, b: nat)
    ensures Pow10(0) == 1.0 && Pow10(1) == 10.0
    ensures Pow10(a + b) == Pow10(a) * Pow10(b)
  {
    if a > 0 {
      TensMultiply(a - 1, b);
    }
  }

  function PriceOf(round: Round, decimals: nat): real {
    round.answer as real / Pow10(decimals)
  }

  function Continue(cfg: Config, s: State, id: nat, value: Option<nat>, round: Option<Round>): State
    requires id < |s.calls|
  {
    match s.calls[id]
    case ReadCache(feed) =>
      if feed in s.cache && s.now < s.cache[feed].expiresAt then
        At(s, id, Returned(feed, s.cache[feed].price, s.cache[feed].origin, s.now, true))
      else At(s, id, ReadDecimals(feed))
    case ReadDecimals(feed) =>
      if feed in s.decimals then At(s, id, FetchRound(feed, s.decimals[feed])) else At(s, id, FetchDecimals(feed))
    case FetchDecimals(feed) =>
      (match value
       case None => At(s, id, Failed(feed))
       case Some(d) =>
         At(s, id, StoreDecimals(feed, d)).(answers := s.answers.(decimals := s.answers.decimals + {(feed, d)})))
    case StoreDecimals(feed, d) => At(s, id, FetchRound(feed, d)).(decimals := s.decimals[feed := d])
    case FetchRound(feed, d) =>
      (match round
       case None => At(s, id, Failed(feed))
       case Some(r) =>
         At(s, id, CheckRound(feed, d, r)).(answers := s.answers.(rounds := s.answers.rounds + {(feed, r)})))
    case CheckRound(feed, d, r) =>
      if s.now - r.updatedAt > cfg.stalenessThreshold then At(s, id, Failed(feed))
      else At(s, id, StorePrice(feed, PriceOf(r, d), Origin(r, d, s.now, 0)))
    case StorePrice(feed, price, origin) =>
      var stored := origin.(storedAt := s.now);
      At(s, id, Returned(feed, price, stored, s.now, false))
        .(cache := s.cache[feed := Cached(price, s.now + cfg.cacheTtl, stored)])
    case Returned(_, _, _, _, _) => s
    case Failed(_) => s
  }

  function At(s: State, id: nat, c: Call): State
    requires id < |s.calls|
  {
    s.(calls := s.calls[id := c])
  }

  function Next(cfg: Config, s: State, step: Step): State {
    match step
    case Tick(to) => if to >= s.now then s.(now := to) else s
    case Begin(feed) => s.(calls := s.calls + [ReadCache(feed)])
    case Advance(id, value, round) => if id < |s.calls| then Continue(cfg, s, id, value, round) else s
  }

  function Run(cfg: Config, steps: seq<Step>): State {
    if steps == [] then START else Next(cfg, Run(cfg, steps[..|steps| - 1]), steps[|steps| - 1])
  }

  // ---------------------------------------------------------------------------------------------------------
  // Provenance and age
  // ---------------------------------------------------------------------------------------------------------

  /** The price is the quotient of an answer and decimals that the feed really gave, and the answer was fresh
      when it was checked. */
  ghost predicate Genuine(cfg: Config, a: Answers, feed: string, price: real, o: Origin) {
    && (feed, o.round) in a.rounds && (feed, o.decimals) in a.decimals
    && price == PriceOf(o.round, o.decimals)
    && o.checkedAt - o.round.updatedAt <= cfg.stalenessThreshold
  }

  ghost predicate CallSound(cfg: Config, s: State, c: Call) {
    match c
    case ReadCache(_) => true
    case ReadDecimals(_) => true
    case FetchDecimals(_) => true
    case StoreDecimals(feed, d) => (feed, d) in s.answers.decimals
    case FetchRound(feed, d) => (feed, d) in s.answers.decimals
    case CheckRound(feed, d, r) => (feed, d) in s.answers.decimals && (feed, r) in s.answers.rounds
    case StorePrice(feed, price, o) => Genuine(cfg, s.answers, feed, price, o) && o.checkedAt <= s.now
    case Returned(feed, price, o, at, hit) =>
      && Genuine(cfg, s.answers, feed, price, o) && o.checkedAt <= o.storedAt <= at <= s.now
      && (if hit then at < o.storedAt + cfg.cacheTtl else at == o.storedAt)
    case Failed(_) => true
  }

  ghost predicate CacheSound(cfg: Config, s: State) {
    forall feed :: feed in s.cache ==>
      var c := s.cache[feed];
      && Genuine(cfg, s.answers, feed, c.price, c.origin)
      && c.origin.checkedAt <= c.origin.storedAt <= s.now
      && c.expiresAt == c.origin.storedAt + cfg.cacheTtl
  }

  ghost predicate Sound(cfg: Config, s: State) {
    && CacheSound(cfg, s)
    && (forall feed :: feed in s.decimals ==> (feed, s.decimals[feed]) in s.answers.decimals)
    && (forall id :: 0 <= id < |s.calls| ==> CallSound(cfg, s, s.calls[id]))
  }

  /** Later states know more answers and have a later clock. */
  lemma SoundGrows(cfg: Config, s: State, t: State, c: Call)
    requires CallSound(cfg, s, c) && s.now <= t.now
    requires s.answers.rounds <= t.answers.rounds && s.answers.decimals <= t.answers.decimals
    ensures CallSound(cfg, t, c)
  {
  }

  lemma StepGrows(cfg: Config, s: State, step: Step)
    ensures var t := Next(cfg, s, step);
            && s.now <= t.now && |s.calls| <= |t.calls|
            && s.answers.rounds <= t.answers.rounds && s.answers.decimals <= t.answers.decimals
  {
    hide PriceOf;
  }

  /** A step touches at most the call that it begins or advances. */
  lemma ChangedCall(cfg: Config, s: State, step: Step, k: nat)
    requires k < |Next(cfg, s, step).calls|
    ensures var t := Next(cfg, s, step);
            || (k < |s.calls| && t.calls[k] == s.calls[k])
            || (step.Begin? && t.calls[k].ReadCache?)
            || (step.Advance? && k == step.id && k < |s.calls|)
  {
    hide PriceOf;
  }

  /** The call that advances stays sound. */
  lemma AdvancedSound(cfg: Config, s: State, id: nat, value: Option<nat>, round: Option<Round>)
    requires Sound(cfg, s) && id < |s.calls|
    ensures var t := Continue(cfg, s, id, value, round); CallSound(cfg, t, t.calls[id])
  {
    hide PriceOf;
    assert CallSound(cfg, s, s.calls[id]);
  }

  /** Only storing a price changes the cache, and only storing decimals changes the known decimals. */
  lemma MapsChangeByStores(cfg: Config, s: State, step: Step)
    ensures var t := Next(cfg, s, step);
            && (t.cache == s.cache || (step.Advance? && step.id < |s.calls| && s.calls[step.id].StorePrice?))
            && (t.decimals == s.decimals || (step.Advance? && step.id < |s.calls| && s.calls[step.id].StoreDecimals?))
  {
    hide PriceOf;
  }

  lemma CacheStaysSound(cfg: Config, s: State, step: Step)
    requires Sound(cfg, s)
    ensures CacheSound(cfg, Next(cfg, s, step))
  {
    hide PriceOf, Genuine, Next;
    var t := Next(cfg, s, step);
    StepGrows(cfg, s, step);
    MapsChangeByStores(cfg, s, step);
    if t.cache == s.cache {
      OldPricesSound(cfg, s, t);
    } else {
      StoredPriceSound(cfg, s, step.id, step.value, step.round);
      assert t == Continue(cfg, s, step.id, step.value, step.round) by { NextAdvance(cfg, s, step); }
    }
  }

  lemma NextAdvance(cfg: Config, s: State, step: Step)
    requires step.Advance? && step.id < |s.calls|
    ensures Next(cfg, s, step) == Continue(cfg, s, step.id, step.value, step.round)
  {
  }

  lemma OldPricesSound(cfg: Config, s: State, t: State)
    requires CacheSound(cfg, s) && t.cache == s.cache && s.now <= t.now
    requires s.answers.rounds <= t.answers.rounds && s.answers.decimals <= t.answers.decimals
    ensures CacheSound(cfg, t)
  {
    hide Genuine;
    forall feed | feed in t.cache
      ensures Genuine(cfg, t.answers, feed, t.cache[feed].price, t.cache[feed].origin)
    {
      GenuineGrows(cfg, s.answers, t.answers, feed, t.cache[feed].price, t.cache[feed].origin);
    }
  }

  lemma StoredPriceSound(cfg: Config, s: State, id: nat, value: Option<nat>, round: Option<Round>)
    requires Sound(cfg, s) && id < |s.calls| && s.calls[id].StorePrice?
    ensures CacheSound(cfg, Continue(cfg, s, id, value, round))
  {
    hide Genuine;
    var c := s.calls[id];
    assert CallSound(cfg, s, c);
    StoredGenuine(cfg, s.answers, c.feed, c.price, c.origin, s.now);
  }

  lemma StoredGenuine(cfg: Config, a: Answers, feed: string, price: real, o: Origin, at: int)
    requires Genuine(cfg, a, feed, price, o)
    ensures Genuine(cfg, a, feed, price, o.(storedAt := at))
  {
  }

  lemma DecimalsStaySound(cfg: Config, s: State, step: Step)
    requires Sound(cfg, s)
    ensures var t := Next(cfg, s, step);
            forall feed :: feed in t.decimals ==> (feed, t.decimals[feed]) in t.answers.decimals
  {
    hide PriceOf, Genuine, CacheSound;
    StepGrows(cfg, s, step);
    MapsChangeByStores(cfg, s, step);
    if step.Advance? && step.id < |s.calls| {
      assert CallSound(cfg, s, s.calls[step.id]);
    }
  }

  lemma GenuineGrows(cfg: Config, a: Answers, b: Answers, feed: string, price: real, o: Origin)
    requires Genuine(cfg, a, feed, price, o) && a.rounds <= b.rounds && a.decimals <= b.decimals
    ensures Genuine(cfg, b, feed, price, o)
  {
  }

  lemma StepSound(cfg: Config, s: State, step: Step)
    requires Sound(cfg, s)
    ensures Sound(cfg, Next(cfg, s, step))
  {
    hide PriceOf, CacheSound, Continue, Genuine;
    var t := Next(cfg, s, step);
    CacheStaysSound(cfg, s, step);
    DecimalsStaySound(cfg, s, step);
    StepGrows(cfg, s, step);
    forall id | 0 <= id < |t.calls|
      ensures CallSound(cfg, t, t.calls[id])
    {
      ChangedCall(cfg, s, step, id);
      if id < |s.calls| && t.calls[id] == s.calls[id] {
        SoundGrows(cfg, s, t, s.calls[id]);
      } else if step.Advance? {
        AdvancedSound(cfg, s, id, step.value, step.round);
      }
    }
  }

  lemma {:induction false} RunSound(cfg: Config, steps: seq<Step>)
    ensures Sound(cfg, Run(cfg, steps))
  {
    if steps != [] {
      RunSound(cfg, steps[..|steps| - 1]);
      StepSound(cfg, Run(cfg, steps[..|steps| - 1]), steps[|steps| - 1]);
    }
  }

  /** Under every interleaving of concurrent calls, a returned price is the quotient of a round and decimals that
      its own feed really reported; a price from the cache is served only within the cache's time to live of being
      stored; and the round behind it is never older than the staleness threshold, plus the time between check and
      store, plus, for a hit, less than the time to live. */
  lemma ReturnedPrices(cfg: Config, steps: seq<Step>, id: nat)
    requires id < |Run(cfg, steps).calls| && Run(cfg, steps).calls[id].Returned?
    ensures var s := Run(cfg, steps);
            var Returned(feed, price, o, at, hit) := s.calls[id];
            && (feed, o.round) in s.answers.rounds && (feed, o.decimals) in s.answers.decimals
            && price * Pow10(o.decimals) == o.round.answer as real
            && (if hit then o.storedAt <= at < o.storedAt + cfg.cacheTtl else at == o.storedAt)
            && at - o.round.updatedAt
               <= cfg.stalenessThreshold + (o.storedAt - o.checkedAt) + (if hit then cfg.cacheTtl - 1 else 0)
  {
    hide Run, Pow10;
    RunSound(cfg, steps);
    assert CallSound(cfg, Run(cfg, steps), Run(cfg, steps).calls[id]);
  }

  /** The same of every price waiting in the cache. */
  lemma CachedPrices(cfg: Config, steps: seq<Step>, feed: string)
    requires feed in Run(cfg, steps).cache
    ensures var s := Run(cfg, steps);
            var c := s.cache[feed];
            && (feed, c.origin.round) in s.answers.rounds && (feed, c.origin.decimals) in s.answers.decimals
            && c.price * Pow10(c.origin.decimals) == c.origin.round.answer as real
            && c.expiresAt == c.origin.storedAt + cfg.cacheTtl && c.origin.storedAt <= s.now
            && c.origin.checkedAt - c.origin.round.updatedAt <= cfg.stalenessThreshold
  {
    hide Run, Pow10;
    RunSound(cfg, steps);
  }

  // ---------------------------------------------------------------------------------------------------------
  // The provider itself
  // ---------------------------------------------------------------------------------------------------------

  datatype Problem = NoFeed | NoDecimals | NoRound | StalePrice

  datatype Answer = Price(value: real) | Error(problem: Problem)

  datatype CachedPrice = CachedPrice(price: real, expiresAt: int)

  lemma RunSnoc(cfg: Config, steps: seq<Step>, step: Step)
    ensures Run(cfg, steps + [step]) == Next(cfg, Run(cfg, steps), step)
  {
    assert (steps + [step])[..|steps|] == steps;
  }

  /** The clock moves to `now`, and then call number id runs its next section. */
  lemma RunSection(cfg: Config, steps: seq<Step>, now: int, id: nat, value: Option<nat>, round: Option<Round>)
    requires id < |Run(cfg, steps).calls| && now >= Run(cfg, steps).now
    ensures Run(cfg, steps + [Tick(now), Advance(id, value, round)])
            == Continue(cfg, Run(cfg, steps).(now := now), id, value, round)
  {
    hide Run, Continue;
    RunSnoc(cfg, steps, Tick(now));
    RunSnoc(cfg, steps + [Tick(now)], Advance(id, value, round));
    assert steps + [Tick(now), Advance(id, value, round)] == steps + [Tick(now)] + [Advance(id, value, round)];
  }

  /** The provider object.  Each method before GetPriceUSD is one critical section, or one step between them, of call
      number `id`, and may run whenever the call stands there, whatever other calls did meanwhile: so every
      interleaving of callers is a run. */
  class Provider {
    const cfg: Config
    const feeds: string -> Option<string>  // the address of a token's feed
    var cache: map<string, CachedPrice>
    var decimals: map<string, nat>
    ghost var steps: seq<Step>

    ghost function Model(): State
      reads this
    {
      Run(cfg, steps)
    }

    /** The two maps are those of the run. */
    ghost predicate Valid()
      reads this
    {
      && decimals == Model().decimals
      && cache.Keys == Model().cache.Keys
      && forall f :: f in cache ==> cache[f] == CachedPrice(Model().cache[f].price, Model().cache[f].expiresAt)
    }

    ghost predicate Stands(id: nat, c: Call)
      reads this
    {
      id < |Model().calls| && Model().calls[id] == c
    }

    /** Call number id has returned the price. */
    ghost predicate HasReturned(id: nat, feed: string, price: real)
      reads this
    {
      id < |Model().calls|
      && match Model().calls[id]
         case Returned(f, x, _, _, _) => f == feed && x == price
         case _ => false
    }

    constructor (cfg: Config, feeds: string -> Option<string>)
      ensures Valid() && this.cfg == cfg && this.feeds == feeds && cache == map[] && decimals == map[] && steps == []
    {
      this.cfg, this.feeds := cfg, feeds;
      cache, decimals, steps := map[], map[], [];
    }

    method BeginCall(feed: string) returns (ghost id: nat)
      requires Valid()
      modifies this`steps
      ensures Valid() && steps == old(steps) + [Begin(feed)]
      ensures Stands(id, ReadCache(feed)) && Model().now == old(Model().now)
    {
      hide Run;
      id := |Model().calls|;
      RunSnoc(cfg, steps, Begin(feed));
      steps := steps + [Begin(feed)];
    }

    method ReadPrice(ghost id: nat, feed: string, now: int) returns (r: Option<real>)
      requires Valid() && Stands(id, ReadCache(feed)) && now >= Model().now
      modifies this`steps
      ensures Valid() && Model().now == now && steps == old(steps) + [Tick(now), Advance(id, None, None)]
      ensures r == if feed in cache && now < cache[feed].expiresAt then Some(cache[feed].price) else None
      ensures if r.Some? then HasReturned(id, feed, r.value) else Stands(id, ReadDecimals(feed))
    {
      hide Run;
      RunSection(cfg, steps, now, id, None, None);
      steps := steps + [Tick(now), Advance(id, None, None)];
      r := if feed in cache && now < cache[feed].expiresAt then Some(cache[feed].price) else None;
    }

    method ReadKnownDecimals(ghost id: nat, feed: string, ghost now: int) returns (r: Option<nat>)
      requires Valid() && Stands(id, ReadDecimals(feed)) && now >= Model().now
      modifies this`steps
      ensures Valid() && Model().now == now && steps == old(steps) + [Tick(now), Advance(id, None, None)]
      ensures r == if feed in decimals then Some(decimals[feed]) else None
      ensures if r.Some? then Stands(id, FetchRound(feed, r.value)) else Stands(id, FetchDecimals(feed))
    {
      hide Run;
      RunSection(cfg, steps, now, id, None, None);
      steps := steps + [Tick(now), Advance(id, None, None)];
      r := if feed in decimals then Some(decimals[feed]) else None;
    }

    /** Asks the feed and stores its answer, if it gives one. */
    method FetchAndStoreDecimals(ghost id: nat, feed: string, ghost now: int, value: Option<nat>)
      requires Valid() && Stands(id, FetchDecimals(feed)) && now >= Model().now
      modifies this`steps, this`decimals
      ensures Valid() && Model().now == now
      ensures decimals == if value.Some? then old(decimals)[feed := value.value] else old(decimals)
      ensures if value.Some? then Stands(id, FetchRound(feed, value.value)) else Stands(id, Failed(feed))
    {
      hide Run;
      RunSection(cfg, steps, now, id, value, None);
      steps := steps + [Tick(now), Advance(id, value, None)];
      if value.Some? {
        RunSection(cfg, steps, now, id, None, None);
        steps := steps + [Tick(now), Advance(id, None, None)];
        decimals := decimals[feed := value.value];
      }
    }

    /** Asks the feed for its latest round and checks how old that is. */
    method FetchAndCheckRound(ghost id: nat, feed: string, d: nat, now: int, round: Option<Round>) returns (r: Answer)
      requires Valid() && Stands(id, FetchRound(feed, d)) && now >= Model().now
      modifies this`steps
      ensures Valid() && Model().now == now
      ensures r == Quote(cfg, Some(d), round, now)
      ensures if r.Price? then Stands(id, StorePrice(feed, r.value, Origin(round.value, d, now, 0)))
              else Stands(id, Failed(feed))
    {
      hide Run, PriceOf;
      RunSection(cfg, steps, now, id, None, round);
      steps := steps + [Tick(now), Advance(id, None, round)];
      if round.None? {
        return Error(NoRound);
      }
      RunSection(cfg, steps, now, id, None, None);
      steps := steps + [Tick(now), Advance(id, None, None)];
      if now - round.value.updatedAt > cfg.stalenessThreshold {
        return Error(StalePrice);
      }
      r := Price(PriceOf(round.value, d));
    }

    method WritePrice(ghost id: nat, feed: string, price: real, ghost origin: Origin, now: int)
      requires Valid() && Stands(id, StorePrice(feed, price, origin)) && now >= Model().now
      modifies this`steps, this`cache
      ensures Valid() && Model().now == now && HasReturned(id, feed, price)
      ensures cache == old(cache)[feed := CachedPrice(price, now + cfg.cacheTtl)]
    {
      hide Run;
      RunSection(cfg, steps, now, id, None, None);
      steps := steps + [Tick(now), Advance(id, None, None)];
      cache := cache[feed := CachedPrice(price, now + cfg.cacheTtl)];
    }

    /** The decimals of the feed: those already known, or else what the feed answers. */
    method GetDecimals(ghost id: nat, feed: string, ghost now: int, value: Option<nat>) returns (r: Option<nat>)
      requires Valid() && Stands(id, ReadDecimals(feed)) && now >= Model().now
      modifies this`steps, this`decimals
      ensures Valid() && Model().now == now && r == KnownOr(old(decimals), feed, value)
      ensures decimals == if r.Some? then old(decimals)[feed := r.value] else old(decimals)
      ensures if r.Some? then Stands(id, FetchRound(feed, r.value)) else Stands(id, Failed(feed))
    {
      hide Run, Next, Continue, Valid;
      r := ReadKnownDecimals(id, feed, now);
      if r.None? {
        FetchAndStoreDecimals(id, feed, now, value);
        r := value;
      }
    }

    /** A call for a feed, with nobody else in between.  `value` and `round` are what the feed answers when asked;
        the clock reads `start`, `checked` and `stored` at the cache, at the staleness check and at the store. */
    method GetFeedPrice(feed: string, start: int, checked: int, stored: int, value: Option<nat>, round: Option<Round>)
      returns (r: Answer, ghost id: nat)
      requires Valid() && Model().now <= start <= checked <= stored
      modifies this
      ensures Valid()
      ensures r == if Fresh(old(cache), feed, start) then Price(old(cache)[feed].price)
                   else Quote(cfg, KnownOr(old(decimals), feed, value), round, checked)
      ensures r.Price? ==> HasReturned(id, feed, r.value)
      ensures cache == if r.Price? && !Fresh(old(cache), feed, start)
                       then old(cache)[feed := CachedPrice(r.value, stored + cfg.cacheTtl)] else old(cache)
      ensures decimals == if !Fresh(old(cache), feed, start) && KnownOr(old(decimals), feed, value).Some?
                          then old(decimals)[feed := KnownOr(old(decimals), feed, value).value] else old(decimals)
    {
      hide Run, Next, Continue, Valid, PriceOf, KnownOr;
      id := BeginCall(feed);
      var cached := ReadPrice(id, feed, start);
      if cached.Some? {
        return Price(cached.value), id;
      }
      var known := GetDecimals(id, feed, start, value);
      if known.None? {
        return Error(NoDecimals), id;
      }
      r := FetchAndCheckRound(id, feed, known.value, checked, round);
      if r.Price? {
        WritePrice(id, feed, r.value, Origin(round.value, known.value, checked, 0), stored);
      }
    }

    /** The price of a token, by way of its feed.  A token without a feed is an error that touches nothing; all
        others share what is known about their feed. */
    method GetPriceUSD(token: string, start: int, checked: int, stored: int, value: Option<nat>, round: Option<Round>)
      returns (r: Answer, ghost id: nat)
      requires Valid() && Model().now <= start <= checked <= stored
      modifies this
      ensures Valid()
      ensures feeds(token).None? ==>
                r == Error(NoFeed) && cache == old(cache) && decimals == old(decimals) && steps == old(steps)
      ensures feeds(token).Some? ==>
                var feed := feeds(token).value;
                && r == (if Fresh(old(cache), feed, start) then Price(old(cache)[feed].price)
                         else Quote(cfg, KnownOr(old(decimals), feed, value), round, checked))
                && (r.Price? ==> HasReturned(id, feed, r.value))
                && cache == (if r.Price? && !Fresh(old(cache), feed, start)
                             then old(cache)[feed := CachedPrice(r.value, stored + cfg.cacheTtl)] else old(cache))
                && decimals == (if !Fresh(old(cache), feed, start) && KnownOr(old(decimals), feed, value).Some?
                                then old(decimals)[feed := KnownOr(old(decimals), feed, value).value]
                                else old(decimals))
    {
      hide Run, Valid, PriceOf, KnownOr, Quote;
      var feed := feeds(token);
      if feed.None? {
        return Error(NoFeed), 0;
      }
      r, id := GetFeedPrice(feed.value, start, checked, stored, value, round);
    }
  }

  predicate Fresh(cache: map<string, CachedPrice>, feed: string, now: int) {
    feed in cache && now < cache[feed].expiresAt
  }

  /** The decimals known for the feed, or what the feed answers. */
  function KnownOr(decimals: map<string, nat>, feed: string, value: Option<nat>): Option<nat> {
    if feed in decimals then Some(decimals[feed]) else value
  }

  /** What a quote says: a price is the answer of a round that is no older than the threshold, divided by ten to the
      decimals; otherwise the first thing that is missing or wrong is named. */
  lemma QuoteMeans(cfg: Config, decimals: Option<nat>, round: Option<Round>, checked: int)
    ensures var q := Quote(cfg, decimals, round, checked);
            && (q.Price? <==> decimals.Some? && round.Some?
                              && checked <= round.value.updatedAt + cfg.stalenessThreshold)
            && (q.Price? ==> q.value * Pow10(decimals.value) == round.value.answer as real)
            && (q == Error(NoDecimals) <==> decimals.None?)
            && (q == Error(NoRound) <==> decimals.Some? && round.None?)
            && (q == Error(StalePrice) <==> decimals.Some? && round.Some?
                                            && checked > round.value.updatedAt + cfg.stalenessThreshold)
  {
    hide Pow10;
  }

  /** The price a fetched round gives, unless something is missing or the round is stale. */
  function Quote(cfg: Config, decimals: Option<nat>, round: Option<Round>, checked: int): Answer {
    if decimals.None? then Error(NoDecimals)
    else if round.None? then Error(NoRound)
    else if checked - round.value.updatedAt > cfg.stalenessThreshold then Error(StalePrice)
    else Price(PriceOf(round.value, decimals.value))
  }
}
