/**
 * The memoised liquidity-risk calculator (src/module44.ts, 52-187). Its key
 * leaves out the fields the assessment does not read.
 */
module Module44 {
  import opened Common
  import opened Text
  import opened CacheKeys
  import opened StreamAccrual
  import opened LruCache

  datatype RiskLevel = Healthy | Warning | Critical | Inactive

  datatype Item = Item(id: string, stream: StreamInfo, timestamp: Option<int>)

  /** A runway of None is unbounded. */
  datatype Assessment = Assessment(
    id: string, runwaySecs: Option<int>, riskLevel: RiskLevel, isCached: bool, computedAt: int)

  datatype Thresholds = Thresholds(critical: int, warning: int)

  datatype ConfigError = CriticalNegative | WarningNotAboveCritical

  function CheckThresholds(t: Thresholds): Option<ConfigError> {
    if t.critical < 0 then Some(CriticalNegative)
    else if t.warning <= t.critical then Some(WarningNotAboveCritical)
    else None
  }

  /** Thresholds are accepted exactly when the lower one is not negative and below the upper one. */
  lemma ThresholdsChecked(t: Thresholds)
    ensures CheckThresholds(t).None? <==> 0 <= t.critical < t.warning
    ensures CheckThresholds(t) == Some(CriticalNegative) <==> t.critical < 0
  {
  }

  function NowSec(item: Item, clock: int): int {
    if item.timestamp.Some? then item.timestamp.value else clock / 1000
  }

  function KeyFields(s: StreamInfo, now: int): seq<string> {
    [Flag(s.paused), Flag(s.cancelled), IntNumeral(s.ratePerSecond), IntNumeral(s.endTime), IntNumeral(now)]
  }

  function CacheKey(id: string, s: StreamInfo, now: int): string {
    Joined(id, KeyFields(s, now))
  }

  function ComputeAssessment(id: string, s: StreamInfo, now: int, t: Thresholds): Assessment {
    if s.cancelled || s.paused || s.ratePerSecond <= 0 then Assessment(id, Some(0), Inactive, false, now)
    else if s.endTime == 0 then Assessment(id, None, Healthy, false, now)
    else
      var runwaySecs := Max(0, s.endTime - now);
      var riskLevel :=
        if runwaySecs <= 0 then Inactive
        else if runwaySecs < t.critical then Critical
        else if runwaySecs < t.warning then Warning
        else Healthy;
      Assessment(id, Some(runwaySecs), riskLevel, false, now)
  }

  function Severity(level: RiskLevel): nat {
    match level
    case Healthy => 0
    case Warning => 1
    case Critical => 2
    case Inactive => 3
  }

  /** With accepted thresholds the risk of a running stream never goes down as time passes. */
  lemma RiskOnlyGrows(id: string, s: StreamInfo, now: int, later: int, t: Thresholds)
    requires CheckThresholds(t).None? && now <= later
    ensures Severity(ComputeAssessment(id, s, now, t).riskLevel) <=
            Severity(ComputeAssessment(id, s, later, t).riskLevel)
  {
  }

  /** The stream accrues nothing any more, whatever the time. */
  predicate Stopped(s: StreamInfo) {
    s.cancelled || s.paused || s.ratePerSecond <= 0
  }

  /** Level and runway from the seconds left: none for a stopped stream, no end of them for an open-ended one. */
  lemma AssessedExactly(id: string, s: StreamInfo, now: int, t: Thresholds)
    requires CheckThresholds(t).None?
    ensures var r, left := ComputeAssessment(id, s, now, t), s.endTime - now;
            && r.id == id && r.computedAt == now && !r.isCached
            && (r.runwaySecs == None <==> !Stopped(s) && s.endTime == 0)
            && (r.runwaySecs.Some? ==> r.runwaySecs.value == if Stopped(s) then 0 else Max(0, left))
            && (r.riskLevel == Inactive <==> Stopped(s) || (s.endTime != 0 && left <= 0))
            && (r.riskLevel == Critical <==> !Stopped(s) && s.endTime != 0 && 0 < left < t.critical)
            && (r.riskLevel == Warning <==> !Stopped(s) && s.endTime != 0 && left > 0 && t.critical <= left < t.warning)
            && (r.riskLevel == Healthy <==> !Stopped(s) && (s.endTime == 0 || (left > 0 && left >= t.warning)))
  {
  }

  /** The item's own timestamp, else the seconds the clock shows. */
  lemma NowExactly(item: Item, clock: int)
    ensures item.timestamp.Some? ==> NowSec(item, clock) == item.timestamp.value
    ensures item.timestamp.None? ==> 1000 * NowSec(item, clock) <= clock < 1000 * NowSec(item, clock) + 1000
  {
  }

  predicate ReportedAt(s: StreamInfo, t: Thresholds, level: RiskLevel, now: int) {
    ComputeAssessment("", s, now, t).riskLevel == level
  }

  ghost predicate EverReported(s: StreamInfo, t: Thresholds, level: RiskLevel) {
    exists now :: ReportedAt(s, t, level, now)
  }

  /** Every level is reported at some instant exactly when the thresholds are accepted and the lower one exceeds 1. */
  lemma EveryLevelReachable(s: StreamInfo, t: Thresholds)
    requires !s.cancelled && !s.paused && s.ratePerSecond > 0 && s.endTime != 0
    ensures t.critical > 1 && CheckThresholds(t).None? <==>
      (forall level :: EverReported(s, t, level))
  {
    if t.critical > 1 && CheckThresholds(t).None? {
      assert ReportedAt(s, t, Inactive, s.endTime);
      assert ReportedAt(s, t, Critical, s.endTime - 1);
      assert ReportedAt(s, t, Warning, s.endTime - t.critical);
      assert ReportedAt(s, t, Healthy, s.endTime - t.warning);
      forall level
        ensures EverReported(s, t, level)
      {
        assert level.Inactive? || level.Critical? || level.Warning? || level.Healthy?;
      }
    } else {
      var missing := if t.critical <= 1 then Critical else Warning;
      assert !EverReported(s, t, missing);
    }
  }

  /** Equal keys force equal assessments, though not equal streams. */
  lemma KeyDetermines(
    id: string, s: StreamInfo, now: int, id': string, s': StreamInfo, now': int, t: Thresholds)
    requires CacheKey(id, s, now) == CacheKey(id', s', now')
    ensures ComputeAssessment(id, s, now, t) == ComputeAssessment(id', s', now', t)
  {
    var f, f' := KeyFields(s, now), KeyFields(s', now');
    FieldsHaveNoUnderscore(s, now);
    FieldsHaveNoUnderscore(s', now');
    JoinedInjective(id, f, id', f');
    assert f[0] == f'[0] && f[1] == f'[1] && f[2] == f'[2] && f[3] == f'[3] && f[4] == f'[4];
    IntNumeralInjective(s.ratePerSecond, s'.ratePerSecond);
    IntNumeralInjective(s.endTime, s'.endTime);
    IntNumeralInjective(now, now');
  }

  lemma FieldsHaveNoUnderscore(s: StreamInfo, now: int)
    ensures forall i :: 0 <= i < |KeyFields(s, now)| ==> '_' !in KeyFields(s, now)[i]
  {
    IntNumeralHasNo(s.ratePerSecond, '_');
    IntNumeralHasNo(s.endTime, '_');
    IntNumeralHasNo(now, '_');
  }

  /** What assessing an item returns with memoisation switched off. */
  function Uncached(item: Item, clock: int, t: Thresholds): Assessment {
    ComputeAssessment(item.id, item.stream, NowSec(item, clock), t)
  }

  /** A stored assessment is right for every item that has its key. */
  ghost function Right(t: Thresholds): Slot<string, Assessment> -> bool {
    (slot: Slot<string, Assessment>) =>
      forall id, s, now :: CacheKey(id, s, now) == slot.key ==> slot.value == ComputeAssessment(id, s, now, t)
  }

  lemma ComputedIsSound(id: string, s: StreamInfo, now: int, t: Thresholds)
    ensures Right(t)(Slot(CacheKey(id, s, now), ComputeAssessment(id, s, now, t)))
  {
    forall id', s', now' | CacheKey(id', s', now') == CacheKey(id, s, now)
      ensures ComputeAssessment(id, s, now, t) == ComputeAssessment(id', s', now', t)
    {
      KeyDetermines(id, s, now, id', s', now', t);
    }
  }

  class Calculator {
    const enableOptimization: bool
    const batchChunkSize: int
    const thresholds: Thresholds
    const cache: LruMemoCache<string, Assessment>
    var totalAssessed: nat

    ghost predicate Valid()
      reads this, cache
    {
      && SoundCache(cache.View(), Right(thresholds)) && cache.defaultTtlMs == None
      && totalAssessed == cache.cacheHits + cache.cacheMisses
      && CheckThresholds(thresholds).None?
    }

    constructor (cacheSize: int, optimize: bool, chunkSize: int, t: Thresholds)
      requires CheckThresholds(t).None?
      ensures Valid() && fresh(cache) && totalAssessed == 0
      ensures enableOptimization == optimize && batchChunkSize == chunkSize && thresholds == t
    {
      enableOptimization, batchChunkSize, thresholds := optimize, chunkSize, t;
      cache := new LruMemoCache(cacheSize, None);
      totalAssessed := 0;
    }

    /** A hit and a miss return the same, but for the mark; the next lookup of the same item is a hit. */
    method AssessSingleItem(item: Item, clock: int) returns (r: Assessment)
      requires Valid()
      modifies this, cache
      ensures Valid()
      ensures r.(isCached := false) == Uncached(item, clock, thresholds)
      ensures r.isCached <==>
        (&& enableOptimization
         && Found(old(cache.View()), CacheKey(item.id, item.stream, NowSec(item, clock)), clock).Some?)
      ensures enableOptimization ==>
        forall u :: Found(cache.View(), CacheKey(item.id, item.stream, NowSec(item, clock)), u).Some?
      ensures totalAssessed == old(totalAssessed) + 1
      ensures cache.cacheHits == old(cache.cacheHits) + if r.isCached then 1 else 0
    {
      var nowSec := NowSec(item, clock);
      var cacheKey := CacheKey(item.id, item.stream, nowSec);
      if enableOptimization {
        GetSound(cache.View(), cacheKey, clock, Right(thresholds));
        var cached := cache.Get(cacheKey, clock);
        if cached.Some? {
          cache.RecordHit();
          totalAssessed := totalAssessed + 1;
          return cached.value.(isCached := true);
        }
      }
      r := ComputeAssessment(item.id, item.stream, nowSec, thresholds);
      if enableOptimization {
        ComputedIsSound(item.id, item.stream, nowSec, thresholds);
        SetSound(cache.View(), cacheKey, r, Right(thresholds));
        var _ := cache.Set(cacheKey, r, Default, clock);
      }
      cache.RecordMiss();
      totalAssessed := totalAssessed + 1;
    }

    /** One slot per item; the slot of a missing item stays empty. */
    method AssessBatch(items: seq<Option<Item>>, clocks: seq<int>) returns (results: array<Option<Assessment>>)
      requires Valid() && |clocks| == |items| && (items == [] || batchChunkSize >= 1)
      modifies this, cache
      ensures Valid() && fresh(results) && results.Length == |items|
      ensures forall j :: 0 <= j < |items| ==> Answers(results[j], items[j], clocks[j], thresholds)
    {
      results := new Option<Assessment>[|items|](_ => None);
      var i := 0;
      while i < |items|
        invariant 0 <= i && Valid()
        invariant forall j :: 0 <= j < Min(i, |items|) ==> Answers(results[j], items[j], clocks[j], thresholds)
        invariant forall j :: Min(i, |items|) <= j < |items| ==> results[j] == None
      {
        var chunkEnd := Min(i + batchChunkSize, |items|);
        for j := i to chunkEnd
          invariant Valid()
          invariant forall k :: 0 <= k < j ==> Answers(results[k], items[k], clocks[k], thresholds)
          invariant forall k :: j <= k < |items| ==> results[k] == None
        {
          if items[j].None? {
            continue;
          }
          var r := AssessSingleItem(items[j].value, clocks[j]);
          results[j] := Some(r);
        }
        i := i + batchChunkSize;
      }
    }

    method ClearCache()
      requires Valid()
      modifies this, cache
      ensures Valid() && totalAssessed == 0 && cache.View().store == []
    {
      cache.Clear();
      totalAssessed := 0;
    }
  }

  ghost predicate Answers(r: Option<Assessment>, item: Option<Item>, clock: int, t: Thresholds) {
    if item.None? then r == None
    else r.Some? && r.value.(isCached := false) == Uncached(item.value, clock, t)
  }
}
