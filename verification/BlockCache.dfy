/** The cache of block timestamps, which keeps a sliding window of recent blocks, and the log processing that reads
    through it. */
module BlockCaches {
  import opened Sequences

  /** One insertion. */
  datatype Put = Put(block: nat, timestamp: int)

  /** The greatest block ever inserted, zero when there is none. */
  function Greatest(puts: seq<Put>): nat {
    if puts == [] then 0
    else
      var before := Greatest(puts[..|puts| - 1]);
      if puts[|puts| - 1].block > before then puts[|puts| - 1].block else before
  }

  /** The value last inserted for the block. */
  function LastPut(puts: seq<Put>, block: nat): Option<int> {
    if puts == [] then None
    else if puts[|puts| - 1].block == block then Some(puts[|puts| - 1].timestamp)
    else LastPut(puts[..|puts| - 1], block)
  }

  /** What a cache that never forgot would answer for the blocks within maxSize of the greatest. */
  function Recent(maxSize: nat, puts: seq<Put>, block: nat): Option<int> {
    if block + maxSize >= Greatest(puts) then LastPut(puts, block) else None
  }

  function Lookup(entries: map<nat, int>, block: nat): Option<int> {
    if block in entries then Some(entries[block]) else None
  }

  lemma PutSnoc(puts: seq<Put>, p: Put)
    ensures Greatest(puts + [p]) == if p.block > Greatest(puts) then p.block else Greatest(puts)
    ensures forall b :: LastPut(puts + [p], b) == if b == p.block then Some(p.timestamp) else LastPut(puts, b)
  {
    assert (puts + [p])[..|puts|] == puts;
  }

  lemma {:induction false} GreatestBounds(puts: seq<Put>, block: nat)
    requires LastPut(puts, block).Some?
    ensures block <= Greatest(puts)
  {
    if puts[|puts| - 1].block != block {
      GreatestBounds(puts[..|puts| - 1], block);
    }
  }

  /** At most as many distinct numbers as the range they lie in. */
  lemma {:induction false} RangeSize(keys: set<nat>, lo: nat, hi: nat)
    requires lo <= hi && forall k :: k in keys ==> lo <= k < hi
    ensures |keys| <= hi - lo
    decreases hi - lo
  {
    if lo == hi {
      assert keys == {};
    } else {
      RangeSize(keys - {hi - 1}, lo, hi - 1);
    }
  }

  /** Inserting and then deleting below the cutoff leaves the recent part of the longer history. */
  lemma WindowSlides(maxSize: nat, puts: seq<Put>, p: Put, before: map<nat, int>, after: map<nat, int>)
    requires forall b :: Lookup(before, b) == Recent(maxSize, puts, b)
    requires forall b: nat :: Lookup(after, b) == if b + maxSize < Greatest(puts + [p]) then None
                                                  else Lookup(before[p.block := p.timestamp], b)
    ensures forall b :: Lookup(after, b) == Recent(maxSize, puts + [p], b)
    ensures |after| <= maxSize + 1
  {
    hide Greatest, LastPut;
    PutSnoc(puts, p);
    forall b
      ensures Lookup(after, b) == Recent(maxSize, puts + [p], b)
    {
      assert Lookup(before, b) == Recent(maxSize, puts, b);
    }
    var g := Greatest(puts + [p]);
    forall b | b in after
      ensures b <= g <= b + maxSize
    {
      assert Lookup(after, b).Some?;
      GreatestBounds(puts + [p], b);
    }
    RangeSize(after.Keys, if g > maxSize then g - maxSize else 0, g + 1);
  }

  class BlockCache {
    const maxSize: nat
    var entries: map<nat, int>
    var latest: nat
    ghost var puts: seq<Put>  // every insertion so far

    /** The cache answers for every block what its whole history says about recent blocks. */
    ghost predicate Valid()
      reads this
    {
      && maxSize >= 1
      && latest == Greatest(puts)
      && forall b :: Lookup(entries, b) == Recent(maxSize, puts, b)
    }

    constructor (maxSize: int)
      ensures Valid() && puts == [] && entries == map[]
      ensures this.maxSize == if maxSize < 1 then 1 else maxSize
    {
      this.maxSize := if maxSize < 1 then 1 else maxSize;
      entries, latest, puts := map[], 0, [];
    }

    method Get(block: nat) returns (r: Option<int>)
      requires Valid()
      ensures r == if block + maxSize >= Greatest(puts) then LastPut(puts, block) else None
    {
      r := None;
      assert Lookup(entries, block) == Recent(maxSize, puts, block);
      if block in entries {
        r := Some(entries[block]);
      }
    }

    /** The cache has an answer for the block. */
    ghost predicate Knows(block: nat)
      reads this
    {
      block + maxSize >= Greatest(puts) && LastPut(puts, block).Some?
    }

    method Set(block: nat, timestamp: int)
      requires Valid()
      modifies this
      ensures Valid() && puts == old(puts) + [Put(block, timestamp)]
      ensures |entries| <= maxSize + 1
    {
      ghost var p, before, history := Put(block, timestamp), entries, puts;
      PutSnoc(puts, p);
      entries := entries[block := timestamp];
      if block > latest {
        latest := block;
      }
      if latest > maxSize {
        Evict(latest - maxSize);
      }
      puts := puts + [p];
      WindowSlides(maxSize, history, p, before, entries);
    }

    /** Deletes the blocks below the cutoff, visiting the map in no particular order. */
    method Evict(cutoff: nat)
      modifies this`entries
      ensures entries == map b | b in old(entries) && b >= cutoff :: old(entries)[b]
    {
      var left := entries.Keys;
      while left != {}
        invariant left <= old(entries).Keys
        invariant entries == map b | b in old(entries) && (b >= cutoff || b in left) :: old(entries)[b]
        decreases left
      {
        var b :| b in left;
        left := left - {b};
        if b < cutoff {
          entries := entries - {b};
        }
      }
    }
  }

  /** A chain of fixed block timestamps, as the RPC reports them. */
  type Timestamps = nat -> int

  /** The part of the adapter that stamps events: `stamped` is what it handed on, log by log. */
  class LogProcessor {
    const cache: BlockCache
    ghost const truth: Timestamps
    var stamped: seq<(nat, int)>

    /** The cache holds only true, positive timestamps. */
    ghost predicate Valid()
      reads this, cache
    {
      && cache.Valid()
      && (forall b :: b in cache.entries ==> cache.entries[b] == truth(b) > 0)
      && (forall i :: 0 <= i < |stamped| ==> stamped[i].1 == 0 || stamped[i].1 == truth(stamped[i].0))
    }

    constructor (cacheSize: int, ghost truth: Timestamps)
      ensures Valid() && fresh(cache) && stamped == [] && this.truth == truth
    {
      cache := new BlockCache(cacheSize);
      this.truth := truth;
      stamped := [];
    }

    /** Stamps one log and hands it on, unless it does not decode or the context is cancelled before there is room
        for it.  A block the cache does not know is asked for, and a positive answer is cached. */
    method ProcessLog(log: IncomingLog) returns (timestamp: int)
      requires Valid() && Truthful(log, truth)
      modifies this`stamped, cache
      ensures Valid()
      ensures stamped == if log.decodes && !log.cancelled then old(stamped) + [(log.block, timestamp)] else old(stamped)
      ensures log.decodes && old(cache.Knows(log.block)) ==> timestamp == truth(log.block)
      ensures log.decodes && !old(cache.Knows(log.block)) ==>
                timestamp == if log.fetched.Some? then log.fetched.value else 0
      ensures cache.puts
              == old(cache.puts)
                 + if log.decodes && !old(cache.Knows(log.block)) && log.fetched.Some? && log.fetched.value > 0
                   then [Put(log.block, log.fetched.value)] else []
    {
      if !log.decodes {
        return 0;
      }
      var block := log.block;
      var known := cache.Get(block);
      timestamp := match known case Some(t) => t case None => 0;
      assert known == Lookup(cache.entries, block);
      if timestamp == 0 {
        timestamp := match log.fetched case Some(t) => t case None => 0;
        if timestamp > 0 {
          ghost var before, history := cache.entries, cache.puts;
          cache.Set(block, timestamp);
          TruthKept(cache.maxSize, history, Put(block, timestamp), before, cache.entries, truth);
        }
      }
      if !log.cancelled {
        stamped := stamped + [(block, timestamp)];
      }
    }

    /** Processes logs as they come in. */
    method ProcessLogs(logs: seq<IncomingLog>)
      requires Valid() && cache.puts == [] && stamped == [] && forall log :: log in logs ==> Truthful(log, truth)
      modifies this`stamped, cache
      ensures Valid()
      ensures cache.puts == PutsAfter(cache.maxSize, logs) && stamped == StampsAfter(cache.maxSize, logs)
    {
      for i := 0 to |logs|
        invariant Valid()
        invariant cache.puts == PutsAfter(cache.maxSize, logs[..i]) && stamped == StampsAfter(cache.maxSize, logs[..i])
      {
        assert logs[..i + 1][..i] == logs[..i];
        CachedIsTrue(cache, truth, logs[i].block);
        var _ := ProcessLog(logs[i]);
      }
      assert logs[..|logs|] == logs;
    }
  }

  /** What is known of a log when it comes in: whether it decodes, what asking for its block's header would yield, and
      whether the context is cancelled before it can be handed on. */
  datatype IncomingLog = IncomingLog(block: nat, decodes: bool, fetched: Option<int>, cancelled: bool)

  /** A request that succeeds yields the block's timestamp. */
  predicate Truthful(log: IncomingLog, truth: Timestamps) {
    log.fetched.Some? ==> log.fetched.value == truth(log.block)
  }

  lemma CachedIsTrue(cache: BlockCache, truth: Timestamps, block: nat)
    requires cache.Valid() && forall b :: b in cache.entries ==> cache.entries[b] == truth(b) > 0
    ensures cache.Knows(block) <==> Recent(cache.maxSize, cache.puts, block).Some?
    ensures cache.Knows(block) ==> Recent(cache.maxSize, cache.puts, block) == Some(truth(block))
  {
    assert Lookup(cache.entries, block) == Recent(cache.maxSize, cache.puts, block);
  }

  // ---------------------------------------------------------------------------------------------------------
  // Runs of logs
  // ---------------------------------------------------------------------------------------------------------

  /** Everything inserted while the logs were processed from an empty cache. */
  function PutsAfter(maxSize: nat, logs: seq<IncomingLog>): seq<Put> {
    if logs == [] then []
    else
      var n := |logs| - 1;
      var before := PutsAfter(maxSize, logs[..n]);
      before + PutsBy(maxSize, before, logs[n])
  }

  function PutsBy(maxSize: nat, puts: seq<Put>, log: IncomingLog): seq<Put> {
    if log.decodes && Recent(maxSize, puts, log.block).None? && log.fetched.Some? && log.fetched.value > 0
    then [Put(log.block, log.fetched.value)] else []
  }

  /** The timestamp that a log gets. */
  function StampOf(maxSize: nat, puts: seq<Put>, log: IncomingLog): int {
    match Recent(maxSize, puts, log.block)
    case Some(t) => t
    case None => if log.fetched.Some? then log.fetched.value else 0
  }

  /** What was handed on while the logs were processed. */
  function StampsAfter(maxSize: nat, logs: seq<IncomingLog>): seq<(nat, int)> {
    if logs == [] then []
    else
      var n, log := |logs| - 1, logs[|logs| - 1];
      StampsAfter(maxSize, logs[..n])
      + if log.decodes && !log.cancelled
        then [(log.block, StampOf(maxSize, PutsAfter(maxSize, logs[..n]), log))] else []
  }

  lemma LastPutAfterLog(maxSize: nat, puts: seq<Put>, log: IncomingLog, block: nat)
    ensures LastPut(puts + PutsBy(maxSize, puts, log), block)
            == if block == log.block && PutsBy(maxSize, puts, log) != [] then log.fetched else LastPut(puts, block)
  {
    var put := PutsBy(maxSize, puts, log);
    if put != [] {
      PutSnoc(puts, put[0]);
      assert puts + put == puts + [put[0]];
    } else {
      assert puts + put == puts;
    }
  }

  lemma {:induction false} PutsAreTrue(maxSize: nat, logs: seq<IncomingLog>, truth: Timestamps, block: nat)
    requires forall log :: log in logs ==> Truthful(log, truth)
    ensures var last := LastPut(PutsAfter(maxSize, logs), block); last.Some? ==> last.value == truth(block) > 0
  {
    if logs != [] {
      hide LastPut;
      var n := |logs| - 1;
      PutsAreTrue(maxSize, logs[..n], truth, block);
      LastPutAfterLog(maxSize, PutsAfter(maxSize, logs[..n]), logs[n], block);
      assert Truthful(logs[n], truth);
    }
  }

  lemma {:induction false} PutsStay(maxSize: nat, logs: seq<IncomingLog>, i: nat, block: nat)
    requires i <= |logs| && LastPut(PutsAfter(maxSize, logs[..i]), block).Some?
    ensures LastPut(PutsAfter(maxSize, logs), block).Some?
  {
    if i == |logs| {
      assert logs[..i] == logs;
    } else {
      hide LastPut;
      var n := |logs| - 1;
      assert logs[..n][..i] == logs[..i];
      PutsStay(maxSize, logs[..n], i, block);
      LastPutAfterLog(maxSize, PutsAfter(maxSize, logs[..n]), logs[n], block);
    }
  }

  /** One successful request is enough: once a log's block has been fetched with a positive timestamp, every later log
      of that block is stamped with it, whatever its own request does, for as long as the block is within the cache's
      window. */
  lemma FetchedOnceStampedAlways(maxSize: nat, logs: seq<IncomingLog>, truth: Timestamps, i: nat, j: nat)
    requires forall log :: log in logs ==> Truthful(log, truth)
    requires i < j < |logs| && logs[i].block == logs[j].block && logs[i].decodes
    requires logs[i].fetched.Some? && logs[i].fetched.value > 0
    requires logs[j].block + maxSize >= Greatest(PutsAfter(maxSize, logs[..j]))
    ensures StampOf(maxSize, PutsAfter(maxSize, logs[..j]), logs[j]) == truth(logs[j].block)
  {
    var block, before := logs[i].block, PutsAfter(maxSize, logs[..i]);
    assert logs[..i + 1][..i] == logs[..i];
    if Recent(maxSize, before, block).None? {
      PutSnoc(before, Put(block, logs[i].fetched.value));
    } else {
      assert PutsAfter(maxSize, logs[..i + 1]) == before;
    }
    assert logs[..j][..i + 1] == logs[..i + 1];
    PutsStay(maxSize, logs[..j], i + 1, block);
    PutsAreTrue(maxSize, logs[..j], truth, block);
  }

  /** Inserting a true timestamp leaves only true ones. */
  lemma TruthKept(maxSize: nat, puts: seq<Put>, p: Put, before: map<nat, int>, after: map<nat, int>, truth: Timestamps)
    requires forall b :: Lookup(before, b) == Recent(maxSize, puts, b)
    requires forall b :: Lookup(after, b) == Recent(maxSize, puts + [p], b)
    requires forall b :: b in before ==> before[b] == truth(b) > 0
    requires p.timestamp == truth(p.block) > 0
    ensures forall b :: b in after ==> after[b] == truth(b) > 0
  {
    PutSnoc(puts, p);
    forall b | b in after
      ensures after[b] == truth(b) > 0
    {
      assert Lookup(after, b) == Recent(maxSize, puts + [p], b);
      assert Lookup(before, b) == Recent(maxSize, puts, b);
    }
  }
}
