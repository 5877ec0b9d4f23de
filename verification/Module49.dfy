/**
 * The memoised analytics engine (src/module49.ts, 80-181): its string keys
 * determine everything the computation reads, so the cache never shows.
 */
module Module49 {
  import opened Common
  import opened Text
  import opened CacheKeys
  import opened StreamAccrual
  import opened LruCache

  /** A batch item; without a timestamp the clock (epoch milliseconds) is read. */
  datatype Item = Item(id: string, stream: StreamInfo, timestamp: Option<int>)

  datatype Value = Value(withdrawable: nat, progress: real, computedAt: int)

  datatype Evaluation = Evaluation(id: string, withdrawable: nat, progress: real, isCached: bool, computedAt: int)

  function NowSec(item: Item, clock: int): int {
    if item.timestamp.Some? then item.timestamp.value else clock / 1000
  }

  function KeyFields(s: StreamInfo, now: int): seq<string> {
    [IntNumeral(s.withdrawn), Flag(s.paused), Flag(s.cancelled), IntNumeral(s.pausedAt), IntNumeral(s.ratePerSecond),
     IntNumeral(s.startTime), IntNumeral(s.endTime), IntNumeral(now)]
  }

  function CacheKey(id: string, s: StreamInfo, now: int): string {
    Joined(id, KeyFields(s, now))
  }

  function Compute(s: StreamInfo, now: int): Value {
    Value(WithdrawableLocal(s, now), NormalizeProgress(StreamProgress(s, now)), now)
  }

  /** What processing an item returns with memoisation switched off. */
  function Uncached(item: Item, clock: int): Evaluation {
    var v := Compute(item.stream, NowSec(item, clock));
    Evaluation(item.id, v.withdrawable, v.progress, false, v.computedAt)
  }

  /** The rate for every second the stream ran less what was withdrawn, and its progress, 1/2 if open-ended. */
  lemma UncachedExactly(item: Item, clock: int)
    ensures var r, s, now := Uncached(item, clock), item.stream, NowSec(item, clock);
            && r.id == item.id && r.computedAt == now && !r.isCached
            && r.withdrawable ==
               (if s.cancelled then 0 else Max(0, s.ratePerSecond * RunningSeconds(s, now) - s.withdrawn))
            && r.progress == (if StreamProgress(s, now).NaN? then 0.5 else StreamProgress(s, now).value)
    ensures if item.timestamp.Some? then NowSec(item, clock) == item.timestamp.value
            else 1000 * NowSec(item, clock) <= clock < 1000 * NowSec(item, clock) + 1000
  {
    WithdrawableExactly(item.stream, NowSec(item, clock));
  }

  /** Equal keys force the same id, the same stream terms and the same instant, whatever the ids contain. */
  lemma KeyDetermines(id: string, s: StreamInfo, now: int, id': string, s': StreamInfo, now': int)
    requires CacheKey(id, s, now) == CacheKey(id', s', now')
    ensures id == id' && s == s' && now == now'
  {
    var f, f' := KeyFields(s, now), KeyFields(s', now');
    FieldsHaveNoUnderscore(s, now);
    FieldsHaveNoUnderscore(s', now');
    JoinedInjective(id, f, id', f');
    assert f[0] == f'[0] && f[1] == f'[1] && f[2] == f'[2] && f[3] == f'[3];
    assert f[4] == f'[4] && f[5] == f'[5] && f[6] == f'[6] && f[7] == f'[7];
    IntNumeralInjective(s.withdrawn, s'.withdrawn);
    IntNumeralInjective(s.pausedAt, s'.pausedAt);
    IntNumeralInjective(s.ratePerSecond, s'.ratePerSecond);
    IntNumeralInjective(s.startTime, s'.startTime);
    IntNumeralInjective(s.endTime, s'.endTime);
    IntNumeralInjective(now, now');
  }

  lemma FieldsHaveNoUnderscore(s: StreamInfo, now: int)
    ensures forall i :: 0 <= i < |KeyFields(s, now)| ==> '_' !in KeyFields(s, now)[i]
  {
    IntNumeralHasNo(s.withdrawn, '_');
    IntNumeralHasNo(s.pausedAt, '_');
    IntNumeralHasNo(s.ratePerSecond, '_');
    IntNumeralHasNo(s.startTime, '_');
    IntNumeralHasNo(s.endTime, '_');
    IntNumeralHasNo(now, '_');
  }

  /** A stored value is right for every item that has its key. */
  ghost function Right(): Slot<string, Value> -> bool {
    (slot: Slot<string, Value>) =>
      forall id, s, now :: CacheKey(id, s, now) == slot.key ==> slot.value == Compute(s, now)
  }

  lemma ComputedIsSound(id: string, s: StreamInfo, now: int)
    ensures Right()(Slot(CacheKey(id, s, now), Compute(s, now)))
  {
    forall id', s', now' | CacheKey(id', s', now') == CacheKey(id, s, now)
      ensures Compute(s, now) == Compute(s', now')
    {
      KeyDetermines(id, s, now, id', s', now');
    }
  }

  /** The evaluations of the items that are present, in order. */
  function AllUncached(items: seq<Option<Item>>, clocks: seq<int>): seq<Evaluation>
    requires |clocks| == |items|
  {
    if items == [] then []
    else
      var n := |items| - 1;
      AllUncached(items[..n], clocks[..n]) + (if items[n].Some? then [Uncached(items[n].value, clocks[n])] else [])
  }

  function WithoutCacheMark(r: Evaluation): Evaluation { r.(isCached := false) }

  class Engine {
    const enableOptimization: bool
    const batchChunkSize: int
    const cache: LruMemoCache<string, Value>
    var totalProcessed: nat
    var cacheHits: nat
    var cacheMisses: nat

    ghost predicate Valid()
      reads this, cache
    {
      && SoundCache(cache.View(), Right()) && cache.defaultTtlMs == None
      && totalProcessed == cacheHits + cacheMisses
    }

    constructor (cacheSize: int, optimize: bool, chunkSize: int)
      ensures Valid() && fresh(cache) && totalProcessed == 0
      ensures enableOptimization == optimize && batchChunkSize == chunkSize
    {
      enableOptimization, batchChunkSize := optimize, chunkSize;
      cache := new LruMemoCache(cacheSize, None);
      totalProcessed, cacheHits, cacheMisses := 0, 0, 0;
    }

    /** A hit and a miss return the same, but for the mark; the next lookup of the same item is a hit. */
    method ProcessSingleItem(item: Item, clock: int) returns (r: Evaluation)
      requires Valid()
      modifies this, cache
      ensures Valid()
      ensures WithoutCacheMark(r) == Uncached(item, clock)
      ensures r.isCached <==>
        (&& enableOptimization
         && Found(old(cache.View()), CacheKey(item.id, item.stream, NowSec(item, clock)), clock).Some?)
      ensures enableOptimization ==>
        forall t :: Found(cache.View(), CacheKey(item.id, item.stream, NowSec(item, clock)), t).Some?
      ensures totalProcessed == old(totalProcessed) + 1
      ensures cacheHits == old(cacheHits) + if r.isCached then 1 else 0
    {
      var nowSec := NowSec(item, clock);
      var cacheKey := CacheKey(item.id, item.stream, nowSec);
      totalProcessed := totalProcessed + 1;
      if enableOptimization {
        GetSound(cache.View(), cacheKey, clock, Right());
        var cached := cache.Get(cacheKey, clock);
        if cached.Some? {
          cacheHits := cacheHits + 1;
          return Evaluation(item.id, cached.value.withdrawable, cached.value.progress, true, cached.value.computedAt);
        }
      }
      cacheMisses := cacheMisses + 1;
      var withdrawable := WithdrawableLocal(item.stream, nowSec);
      var progress := NormalizeProgress(StreamProgress(item.stream, nowSec));
      if enableOptimization {
        ComputedIsSound(item.id, item.stream, nowSec);
        SetSound(cache.View(), cacheKey, Value(withdrawable, progress, nowSec), Right());
        var _ := cache.Set(cacheKey, Value(withdrawable, progress, nowSec), Default, clock);
      }
      return Evaluation(item.id, withdrawable, progress, false, nowSec);
    }

    method ProcessStreamBatch(items: seq<Option<Item>>, clocks: seq<int>) returns (results: seq<Evaluation>)
      requires Valid() && |clocks| == |items| && (items == [] || batchChunkSize >= 1)
      modifies this, cache
      ensures Valid()
      ensures |results| == |AllUncached(items, clocks)| == totalProcessed - old(totalProcessed)
      ensures forall i :: 0 <= i < |results| ==> WithoutCacheMark(results[i]) == AllUncached(items, clocks)[i]
    {
      results := [];
      var i := 0;
      while i < |items|
        invariant 0 <= i && Valid()
        invariant Evaluated(results, items, clocks, Min(i, |items|))
        invariant totalProcessed == old(totalProcessed) + |results|
      {
        var chunkEnd := Min(i + batchChunkSize, |items|);
        for j := i to chunkEnd
          invariant Valid() && Evaluated(results, items, clocks, j)
          invariant totalProcessed == old(totalProcessed) + |results|
        {
          EvaluatedNext(results, items, clocks, j);
          if items[j].None? {
            continue;
          }
          var r := ProcessSingleItem(items[j].value, clocks[j]);
          results := results + [r];
        }
        i := i + batchChunkSize;
      }
      assert items[..|items|] == items && clocks[..|items|] == clocks;
    }

    method ClearCache()
      requires Valid()
      modifies this, cache
      ensures Valid() && totalProcessed == 0 && cache.View().store == []
    {
      cache.Clear();
      cacheHits, cacheMisses, totalProcessed := 0, 0, 0;
    }
  }

  /** The results so far are the evaluations of the first j items. */
  ghost predicate Evaluated(results: seq<Evaluation>, items: seq<Option<Item>>, clocks: seq<int>, j: int) {
    && 0 <= j <= |items| == |clocks|
    && |results| == |AllUncached(items[..j], clocks[..j])|
    && forall i :: 0 <= i < |results| ==> WithoutCacheMark(results[i]) == AllUncached(items[..j], clocks[..j])[i]
  }

  lemma EvaluatedNext(results: seq<Evaluation>, items: seq<Option<Item>>, clocks: seq<int>, j: nat)
    requires j < |items| && Evaluated(results, items, clocks, j)
    ensures items[j].None? ==> Evaluated(results, items, clocks, j + 1)
    ensures items[j].Some? ==> forall r :: WithoutCacheMark(r) == Uncached(items[j].value, clocks[j]) ==>
      Evaluated(results + [r], items, clocks, j + 1)
  {
    assert items[..j + 1][..j] == items[..j] && clocks[..j + 1][..j] == clocks[..j];
  }
}
