/**
 * The worker pool whose in-flight limit adapts to latency
 * (src/map-with-concurrency.ts, 124-184). Each step is the code a worker runs
 * between two awaits; the steps of different workers interleave in any order.
 */
module AdaptivePool {
  import opened Common

  /** Where a worker stands; all but Start and Done carry the item it claimed. */
  datatype Worker =
    | Start
    | Waiting(item: nat)   // its resolver is in `waiters`
    | Woken(item: nat)     // resolver called, about to test the limit again
    | Acquired(item: nat)  // counted in flight, call not started yet
    | Running(item: nat)   // its call is pending
    | Failed(item: nat)    // its call rejected
    | Done

  datatype Config<!T, !R> = Config(items: seq<T>, fn: T -> R, min: int, max: int, initial: int)

  datatype Pool<R> = Pool(
    limit: int, inFlight: int, index: nat, waiters: seq<nat>, results: seq<Option<R>>, workers: seq<Worker>)

  /** An option that is absent or not finite falls back to the default. */
  function FiniteOr(value: Option<real>, fallback: int): int {
    if value.Some? then Trunc(value.value) else fallback
  }

  function Configure<T, R>(
    items: seq<T>, fn: T -> R, min: Option<real>, max: Option<real>, initial: Option<real>): Config<T, R>
  {
    var lo := Max(1, FiniteOr(min, 1));
    var hi := Max(lo, FiniteOr(max, 8));
    Config(items, fn, lo, hi, Min(hi, Max(lo, FiniteOr(initial, 2))))
  }

  // ------------------------------------------------------------------
  // Atomic steps
  // ------------------------------------------------------------------

  function WorkerCount<T, R>(c: Config<T, R>): nat { Max(0, Min(c.max, |c.items|)) }

  function Initial<T, R>(c: Config<T, R>): Pool<R> {
    Pool(c.initial, 0, 0, [], seq(|c.items|, _ => None), seq(WorkerCount(c), _ => Start))
  }

  /** The test at the head of the waiting loop: queue up, or take a place. */
  function Acquire<R>(p: Pool<R>, w: nat, item: nat): Pool<R>
    requires w < |p.workers|
  {
    if p.inFlight >= p.limit then p.(waiters := p.waiters + [w], workers := p.workers[w := Waiting(item)])
    else p.(inFlight := p.inFlight + 1, workers := p.workers[w := Acquired(item)])
  }

  /** The head of the worker loop: claim the next item, or finish. */
  function LoopHead<T, R>(c: Config<T, R>, p: Pool<R>, w: nat): Pool<R>
    requires w < |p.workers|
  {
    if p.index < |c.items| then Acquire(p.(index := p.index + 1), w, p.index)
    else p.(workers := p.workers[w := Done])
  }

  function Wake(workers: seq<Worker>, waiters: seq<nat>): (r: seq<Worker>)
    ensures |r| == |workers|
  {
    seq(|workers|, w requires 0 <= w < |workers| =>
      if w in waiters && workers[w].Waiting? then Woken(workers[w].item) else workers[w])
  }

  /** Give the place back and wake everyone who waits. */
  function Release<R>(p: Pool<R>): (r: Pool<R>)
    ensures |r.workers| == |p.workers|
  {
    p.(inFlight := p.inFlight - 1, waiters := [], workers := Wake(p.workers, p.waiters))
  }

  function Adapted<T, R>(c: Config<T, R>, limit: int, slow: bool): int {
    if slow then Max(c.min, limit / 2) else Min(c.max, limit + 1)
  }

  datatype Op =
    | Begin(w: nat)               // the worker function is called
    | Resume(w: nat)              // a woken worker tests the limit again
    | Call(w: nat)                // fn(items[i]) is called
    | Return(w: nat, slow: bool)  // the call resolves; the worker goes on to the loop head
    | Throw(w: nat)               // the call rejects

  predicate Enabled<T, R>(c: Config<T, R>, p: Pool<R>, op: Op) {
    op.w < |p.workers| &&
    match op
    case Begin(w) => p.workers[w].Start?
    case Resume(w) => p.workers[w].Woken?
    case Call(w) => p.workers[w].Acquired?
    case Return(w, _) => p.workers[w].Running? && p.workers[w].item < |c.items| == |p.results|
    case Throw(w) => p.workers[w].Running?
  }

  function Store<T, R>(c: Config<T, R>, p: Pool<R>, item: nat, slow: bool): Pool<R>
    requires item < |c.items| == |p.results|
  {
    p.(results := p.results[item := Some(c.fn(c.items[item]))], limit := Adapted(c, p.limit, slow))
  }

  function Step<T, R>(c: Config<T, R>, p: Pool<R>, op: Op): Pool<R>
    requires Enabled(c, p, op)
  {
    match op
    case Begin(w) => LoopHead(c, p, w)
    case Resume(w) => Acquire(p, w, p.workers[w].item)
    case Call(w) => p.(workers := p.workers[w := Running(p.workers[w].item)])
    case Return(w, slow) => LoopHead(c, Release(Store(c, p, p.workers[w].item, slow)), w)
    case Throw(w) => Release(p.(workers := p.workers[w := Failed(p.workers[w].item)]))
  }

  // ------------------------------------------------------------------
  // Sums over the workers
  // ------------------------------------------------------------------

  function Sum(workers: seq<Worker>, weight: Worker -> nat): nat {
    if workers == [] then 0
    else Sum(workers[..|workers| - 1], weight) + weight(workers[|workers| - 1])
  }

  lemma SumUpdate(workers: seq<Worker>, weight: Worker -> nat, w: nat, to: Worker)
    requires w < |workers|
    ensures Sum(workers[w := to], weight) == Sum(workers, weight) - weight(workers[w]) + weight(to)
  {
    var n := |workers| - 1;
    if w == n {
      assert workers[w := to][..n] == workers[..n];
    } else {
      SumUpdate(workers[..n], weight, w, to);
      assert workers[w := to][..n] == workers[..n][w := to];
    }
  }

  lemma {:induction false} SumSame(a: seq<Worker>, b: seq<Worker>, weight: Worker -> nat)
    requires |a| == |b| && forall w :: 0 <= w < |a| ==> weight(a[w]) == weight(b[w])
    ensures Sum(a, weight) == Sum(b, weight)
  {
    if a != [] {
      SumSame(a[..|a| - 1], b[..|b| - 1], weight);
    }
  }

  lemma {:induction false} SumBounded(workers: seq<Worker>, weight: Worker -> nat, bound: nat)
    requires forall w :: 0 <= w < |workers| ==> weight(workers[w]) <= bound
    ensures Sum(workers, weight) <= bound * |workers|
  {
    if workers != [] {
      SumBounded(workers[..|workers| - 1], weight, bound);
    }
  }

  lemma SumPositive(workers: seq<Worker>, weight: Worker -> nat) returns (w: nat)
    requires Sum(workers, weight) > 0
    ensures w < |workers| && weight(workers[w]) > 0
  {
    var n := |workers| - 1;
    if weight(workers[n]) > 0 {
      w := n;
    } else {
      w := SumPositive(workers[..n], weight);
    }
  }

  function InFlight(k: Worker): nat { if k.Acquired? || k.Running? then 1 else 0 }

  // ------------------------------------------------------------------
  // The invariant
  // ------------------------------------------------------------------

  ghost predicate ConfigOk<T(!new), R(!new)>(c: Config<T, R>) {
    1 <= c.min <= c.initial <= c.max
  }

  ghost predicate LimitOk<T(!new), R(!new)>(c: Config<T, R>, p: Pool<R>) {
    && c.min <= p.limit <= c.max
    && p.inFlight == Sum(p.workers, InFlight) <= c.max
  }

  /** Those who wait are exactly those on the list, once each, and never while there is room. */
  ghost predicate WaitersOk<R>(p: Pool<R>) {
    && (forall w :: 0 <= w < |p.workers| ==> (w in p.waiters <==> p.workers[w].Waiting?))
    && (forall a :: 0 <= a < |p.waiters| ==> p.waiters[a] < |p.workers|)
    && (forall a, b :: 0 <= a < b < |p.waiters| ==> p.waiters[a] != p.waiters[b])
    && (p.waiters != [] ==> p.inFlight >= p.limit)
  }

  /** The item a worker answers for; a failed worker keeps the item whose call rejected. */
  function Held(k: Worker): Option<nat> {
    match k
    case Start => None
    case Done => None
    case _ => Some(k.item)
  }

  function HeldBy(workers: seq<Worker>): (r: seq<Option<nat>>)
    ensures |r| == |workers|
  {
    seq(|workers|, w requires 0 <= w < |workers| => Held(workers[w]))
  }

  ghost predicate HeldBySomeone(held: seq<Option<nat>>, i: nat) {
    exists w :: 0 <= w < |held| && held[w] == Some(i)
  }

  /** Every claimed item has its result or exactly one worker; no other item has either. */
  ghost predicate ItemsOk<T(!new), R(!new)>(
    c: Config<T, R>, index: nat, results: seq<Option<R>>, held: seq<Option<nat>>)
  {
    && index <= |c.items| == |results|
    && (forall w :: 0 <= w < |held| && held[w].Some? ==> held[w].value < index && results[held[w].value] == None)
    && (forall v, w :: 0 <= v < w < |held| && held[v].Some? ==> held[v] != held[w])
    && (forall i :: 0 <= i < |results| && results[i] != None ==> i < index && results[i] == Some(c.fn(c.items[i])))
    && (forall i :: 0 <= i < index && results[i] == None ==> HeldBySomeone(held, i))
  }

  ghost predicate DoneOk<T(!new), R(!new)>(c: Config<T, R>, p: Pool<R>) {
    forall w :: 0 <= w < |p.workers| && p.workers[w].Done? ==> p.index == |c.items|
  }

  ghost predicate Invariant<T(!new), R(!new)>(c: Config<T, R>, p: Pool<R>) {
    && ConfigOk(c) && |p.workers| == WorkerCount(c)
    && LimitOk(c, p) && WaitersOk(p) && DoneOk(c, p)
    && ItemsOk(c, p.index, p.results, HeldBy(p.workers))
  }

  // ------------------------------------------------------------------
  // Each step keeps it
  // ------------------------------------------------------------------

  lemma InitialOk<T(!new), R(!new)>(c: Config<T, R>)
    requires ConfigOk(c)
    ensures Invariant(c, Initial(c))
  {
    var p := Initial(c);
    SumBounded(p.workers, InFlight, 0);
  }

  /** A worker that is not counted, or whose place was just given back, waits or takes a place. */
  lemma AcquireLimit<T(!new), R(!new)>(c: Config<T, R>, p: Pool<R>, w: nat, item: nat)
    requires w < |p.workers| && c.min <= p.limit <= c.max
    requires p.inFlight == Sum(p.workers, InFlight) - InFlight(p.workers[w])
    requires p.inFlight <= c.max
    ensures LimitOk(c, Acquire(p, w, item))
  {
    SumUpdate(p.workers, InFlight, w, Waiting(item));
    SumUpdate(p.workers, InFlight, w, Acquired(item));
  }

  lemma LoopHeadLimit<T(!new), R(!new)>(c: Config<T, R>, p: Pool<R>, w: nat)
    requires w < |p.workers| && c.min <= p.limit <= c.max
    requires p.inFlight == Sum(p.workers, InFlight) - InFlight(p.workers[w])
    requires p.inFlight <= c.max
    ensures LimitOk(c, LoopHead(c, p, w))
  {
    if p.index < |c.items| {
      AcquireLimit(c, p.(index := p.index + 1), w, p.index);
    } else {
      SumUpdate(p.workers, InFlight, w, Done);
    }
  }

  lemma StepLimit<T(!new), R(!new)>(c: Config<T, R>, p: Pool<R>, op: Op)
    requires ConfigOk(c) && LimitOk(c, p) && Enabled(c, p, op)
    ensures LimitOk(c, Step(c, p, op))
  {
    match op
    case Begin(w) => LoopHeadLimit(c, p, w);
    case Resume(w) => AcquireLimit(c, p, w, p.workers[w].item);
    case Call(w) => SumUpdate(p.workers, InFlight, w, Running(p.workers[w].item));
    case Return(w, slow) =>
      SumSame(p.workers, Wake(p.workers, p.waiters), InFlight);
      LoopHeadLimit(c, Release(Store(c, p, p.workers[w].item, slow)), w);
    case Throw(w) =>
      var q := p.workers[w := Failed(p.workers[w].item)];
      SumUpdate(p.workers, InFlight, w, Failed(p.workers[w].item));
      SumSame(q, Wake(q, p.waiters), InFlight);
  }

  lemma LoopHeadWaiters<T(!new), R(!new)>(c: Config<T, R>, p: Pool<R>, w: nat)
    requires WaitersOk(p) && w < |p.workers| && !p.workers[w].Waiting?
    ensures WaitersOk(LoopHead(c, p, w))
    ensures forall item :: WaitersOk(Acquire(p, w, item))
  {
  }

  lemma ReleaseWaiters<R>(p: Pool<R>)
    requires forall w :: 0 <= w < |p.workers| && p.workers[w].Waiting? ==> w in p.waiters
    ensures WaitersOk(Release(p))
  {
  }

  /** No wake-up is lost: nobody is left on the list while there is room. */
  lemma StepWaiters<T(!new), R(!new)>(c: Config<T, R>, p: Pool<R>, op: Op)
    requires WaitersOk(p) && Enabled(c, p, op)
    ensures WaitersOk(Step(c, p, op))
  {
    match op
    case Begin(w) => LoopHeadWaiters(c, p, w);
    case Resume(w) => LoopHeadWaiters(c, p, w);
    case Call(w) =>
    case Return(w, slow) =>
      var q := Store(c, p, p.workers[w].item, slow);
      ReleaseWaiters(q);
      LoopHeadWaiters(c, Release(q), w);
    case Throw(w) =>
      ReleaseWaiters(p.(workers := p.workers[w := Failed(p.workers[w].item)]));
  }

  /** Claiming: a worker without an item takes the first unclaimed one. */
  lemma ClaimItems<T(!new), R(!new)>(
    c: Config<T, R>, index: nat, results: seq<Option<R>>, held: seq<Option<nat>>, w: nat)
    requires ItemsOk(c, index, results, held) && w < |held| && held[w] == None && index < |c.items|
    ensures ItemsOk(c, index + 1, results, held[w := Some(index)])
  {
    var h := held[w := Some(index)];
    forall i | 0 <= i < index + 1 && results[i] == None
      ensures HeldBySomeone(h, i)
    {
      if i == index {
        assert h[w] == Some(i);
      } else {
        var v :| 0 <= v < |held| && held[v] == Some(i);
        assert h[v] == Some(i);
      }
    }
  }

  /** Settling: the item's worker lets go of it as its result is stored. */
  lemma SettleItems<T(!new), R(!new)>(
    c: Config<T, R>, index: nat, results: seq<Option<R>>, held: seq<Option<nat>>, w: nat)
    requires ItemsOk(c, index, results, held) && w < |held| && held[w].Some?
    ensures var i := held[w].value;
            ItemsOk(c, index, results[i := Some(c.fn(c.items[i]))], held[w := None])
  {
    var item := held[w].value;
    var h, r := held[w := None], results[item := Some(c.fn(c.items[item]))];
    forall i | 0 <= i < index && r[i] == None
      ensures HeldBySomeone(h, i)
    {
      var v :| 0 <= v < |held| && held[v] == Some(i);
      assert h[v] == Some(i);
    }
  }

  lemma LoopHeadItems<T(!new), R(!new)>(c: Config<T, R>, p: Pool<R>, w: nat)
    requires w < |p.workers| && ItemsOk(c, p.index, p.results, HeldBy(p.workers)[w := None])
    ensures var r := LoopHead(c, p, w); ItemsOk(c, r.index, r.results, HeldBy(r.workers))
  {
    var r := LoopHead(c, p, w);
    var free := HeldBy(p.workers)[w := None];
    if p.index < |c.items| {
      ClaimItems(c, p.index, p.results, free, w);
      assert HeldBy(r.workers) == free[w := Some(p.index)];
    } else {
      assert HeldBy(r.workers) == free;
    }
  }

  lemma StepItems<T(!new), R(!new)>(c: Config<T, R>, p: Pool<R>, op: Op)
    requires ItemsOk(c, p.index, p.results, HeldBy(p.workers)) && Enabled(c, p, op)
    ensures var r := Step(c, p, op); ItemsOk(c, r.index, r.results, HeldBy(r.workers))
  {
    var held := HeldBy(p.workers);
    match op
    case Begin(w) =>
      assert held[w := None] == held;
      LoopHeadItems(c, p, w);
    case Resume(w) => assert HeldBy(Step(c, p, op).workers) == held;
    case Call(w) => assert HeldBy(Step(c, p, op).workers) == held;
    case Return(w, slow) =>
      SettleItems(c, p.index, p.results, held, w);
      var q := Release(Store(c, p, p.workers[w].item, slow));
      assert HeldBy(q.workers) == held;
      LoopHeadItems(c, q, w);
    case Throw(w) => assert HeldBy(Step(c, p, op).workers) == held;
  }

  lemma StepDone<T(!new), R(!new)>(c: Config<T, R>, p: Pool<R>, op: Op)
    requires p.index <= |c.items| && DoneOk(c, p) && Enabled(c, p, op)
    ensures DoneOk(c, Step(c, p, op)) && |Step(c, p, op).workers| == |p.workers|
  {
  }

  lemma StepOk<T(!new), R(!new)>(c: Config<T, R>, p: Pool<R>, op: Op)
    requires Invariant(c, p) && Enabled(c, p, op)
    ensures Invariant(c, Step(c, p, op))
  {
    StepLimit(c, p, op);
    StepWaiters(c, p, op);
    StepItems(c, p, op);
    StepDone(c, p, op);
  }

  // ------------------------------------------------------------------
  // Runs
  // ------------------------------------------------------------------

  ghost predicate IsRun<T(!new), R(!new)>(c: Config<T, R>, ops: seq<Op>)
    decreases |ops|, 0
  {
    ops == [] || (IsRun(c, ops[..|ops| - 1]) && Enabled(c, After(c, ops[..|ops| - 1]), ops[|ops| - 1]))
  }

  ghost function After<T(!new), R(!new)>(c: Config<T, R>, ops: seq<Op>): Pool<R>
    requires IsRun(c, ops)
    decreases |ops|, 1
  {
    if ops == [] then Initial(c) else Step(c, After(c, ops[..|ops| - 1]), ops[|ops| - 1])
  }

  /** In every interleaving the invariant holds throughout. */
  lemma {:induction false} RunOk<T(!new), R(!new)>(c: Config<T, R>, ops: seq<Op>)
    requires ConfigOk(c) && IsRun(c, ops)
    ensures Invariant(c, After(c, ops))
  {
    if ops == [] {
      InitialOk(c);
    } else {
      RunOk(c, ops[..|ops| - 1]);
      StepOk(c, After(c, ops[..|ops| - 1]), ops[|ops| - 1]);
    }
  }

  // ------------------------------------------------------------------
  // Termination
  // ------------------------------------------------------------------

  function Pending(k: Worker): nat { if k.Waiting? || k.Woken? || k.Acquired? || k.Running? then 1 else 0 }

  function Weight(k: Worker): nat {
    match k
    case Start => 4
    case Woken(_) => 3
    case Waiting(_) => 2
    case Acquired(_) => 2
    case Running(_) => 1
    case Failed(_) => 0
    case Done => 0
  }

  /** Items whose call has not settled. */
  function Unsettled<T, R>(c: Config<T, R>, p: Pool<R>): int {
    |c.items| - p.index + Sum(p.workers, Pending)
  }

  /** Settling an item pays for waking every waiter; every other step lowers some worker's weight. */
  function Measure<T, R>(c: Config<T, R>, p: Pool<R>): int {
    Unsettled(c, p) * (4 * |p.workers| + 1) + Sum(p.workers, Weight)
  }

  lemma AcquireMeasure<R>(p: Pool<R>, w: nat, item: nat)
    requires w < |p.workers|
    ensures var r := Acquire(p, w, item).workers;
            && Sum(r, Pending) == Sum(p.workers, Pending) - Pending(p.workers[w]) + 1
            && Sum(r, Weight) == Sum(p.workers, Weight) - Weight(p.workers[w]) + 2
  {
    SumUpdate(p.workers, Pending, w, Waiting(item));
    SumUpdate(p.workers, Pending, w, Acquired(item));
    SumUpdate(p.workers, Weight, w, Waiting(item));
    SumUpdate(p.workers, Weight, w, Acquired(item));
  }

  lemma LoopHeadMeasure<T, R>(c: Config<T, R>, p: Pool<R>, w: nat)
    requires w < |p.workers|
    ensures Unsettled(c, LoopHead(c, p, w)) == Unsettled(c, p) - Pending(p.workers[w])
    ensures Sum(LoopHead(c, p, w).workers, Weight) <= Sum(p.workers, Weight) - Weight(p.workers[w]) + 2
  {
    if p.index < |c.items| {
      AcquireMeasure(p.(index := p.index + 1), w, p.index);
    } else {
      SumUpdate(p.workers, Pending, w, Done);
      SumUpdate(p.workers, Weight, w, Done);
    }
  }

  lemma ReturnDescends<T, R>(c: Config<T, R>, p: Pool<R>, w: nat, slow: bool)
    requires Enabled(c, p, Return(w, slow))
    ensures Unsettled(c, Step(c, p, Return(w, slow))) == Unsettled(c, p) - 1
  {
    SumSame(p.workers, Wake(p.workers, p.waiters), Pending);
    LoopHeadMeasure(c, Release(Store(c, p, p.workers[w].item, slow)), w);
  }

  lemma ThrowDescends<T, R>(c: Config<T, R>, p: Pool<R>, w: nat)
    requires Enabled(c, p, Throw(w))
    ensures Unsettled(c, Step(c, p, Throw(w))) == Unsettled(c, p) - 1
  {
    var q := p.workers[w := Failed(p.workers[w].item)];
    SumUpdate(p.workers, Pending, w, Failed(p.workers[w].item));
    SumSame(q, Wake(q, p.waiters), Pending);
  }

  lemma CallDescends<T, R>(c: Config<T, R>, p: Pool<R>, w: nat)
    requires Enabled(c, p, Call(w))
    ensures Unsettled(c, Step(c, p, Call(w))) == Unsettled(c, p)
    ensures Sum(Step(c, p, Call(w)).workers, Weight) < Sum(p.workers, Weight)
  {
    SumUpdate(p.workers, Pending, w, Running(p.workers[w].item));
    SumUpdate(p.workers, Weight, w, Running(p.workers[w].item));
  }

  /** Either an item settles, or none does and the weights go down. */
  lemma StepDescends<T, R>(c: Config<T, R>, p: Pool<R>, op: Op)
    requires Enabled(c, p, op)
    ensures |Step(c, p, op).workers| == |p.workers|
    ensures Unsettled(c, Step(c, p, op)) == Unsettled(c, p) - (if op.Return? || op.Throw? then 1 else 0)
    ensures !op.Return? && !op.Throw? ==> Sum(Step(c, p, op).workers, Weight) < Sum(p.workers, Weight)
  {
    match op
    case Begin(w) => LoopHeadMeasure(c, p, w);
    case Resume(w) => AcquireMeasure(p, w, p.workers[w].item);
    case Call(w) => CallDescends(c, p, w);
    case Return(w, slow) => ReturnDescends(c, p, w, slow);
    case Throw(w) => ThrowDescends(c, p, w);
  }

  lemma OneUnitOutweighs(u: int, unit: int, before: int, after: int)
    requires 0 <= before && after < unit
    ensures (u - 1) * unit + after < u * unit + before
  {
    assert (u - 1) * unit == u * unit - unit;
  }

  lemma StepMeasure<T, R>(c: Config<T, R>, p: Pool<R>, op: Op)
    requires Enabled(c, p, op)
    ensures Measure(c, Step(c, p, op)) < Measure(c, p)
  {
    StepDescends(c, p, op);
    var r := Step(c, p, op);
    if op.Return? || op.Throw? {
      var after := Sum(r.workers, Weight);
      SumBounded(r.workers, Weight, 4);
      OneUnitOutweighs(Unsettled(c, p), 4 * |p.workers| + 1, Sum(p.workers, Weight), after);
    }
  }

  lemma MeasureRange<T(!new), R(!new)>(c: Config<T, R>, p: Pool<R>)
    requires p.index <= |c.items|
    ensures Measure(c, p) >= 0
  {
    var u, unit: int := Unsettled(c, p), 4 * |p.workers| + 1;
    assert u * unit >= 0;
  }

  lemma InitialMeasure<T(!new), R(!new)>(c: Config<T, R>)
    ensures Measure(c, Initial(c)) <= |c.items| * (4 * WorkerCount(c) + 1) + 4 * WorkerCount(c)
  {
    SumBounded(Initial(c).workers, Pending, 0);
    SumBounded(Initial(c).workers, Weight, 4);
  }

  /** No run, whatever the interleaving, the latencies and the rejections, takes more steps than this. */
  lemma {:induction false} RunsEnd<T(!new), R(!new)>(c: Config<T, R>, ops: seq<Op>)
    requires ConfigOk(c) && IsRun(c, ops)
    ensures |ops| <= |c.items| * (4 * WorkerCount(c) + 1) + 4 * WorkerCount(c)
  {
    RunOk(c, ops);
    RunMeasure(c, ops);
    MeasureRange(c, After(c, ops));
    InitialMeasure(c);
  }

  lemma {:induction false} RunMeasure<T(!new), R(!new)>(c: Config<T, R>, ops: seq<Op>)
    requires IsRun(c, ops)
    ensures Measure(c, After(c, ops)) <= Measure(c, Initial(c)) - |ops|
  {
    if ops != [] {
      RunMeasure(c, ops[..|ops| - 1]);
      StepMeasure(c, After(c, ops[..|ops| - 1]), ops[|ops| - 1]);
    }
  }

  // ------------------------------------------------------------------
  // Progress and the result
  // ------------------------------------------------------------------

  ghost predicate Finished<R>(p: Pool<R>) {
    forall w :: 0 <= w < |p.workers| ==> p.workers[w].Done? || p.workers[w].Failed?
  }

  /** No deadlock: while a worker is unfinished some step can be taken. */
  lemma Progress<T(!new), R(!new)>(c: Config<T, R>, p: Pool<R>) returns (op: Op)
    requires Invariant(c, p) && !Finished(p)
    ensures Enabled(c, p, op)
  {
    var w: nat :| w < |p.workers| && !p.workers[w].Done? && !p.workers[w].Failed?;
    if p.workers[w].Start? {
      return Begin(w);
    }
    if p.workers[w].Woken? {
      return Resume(w);
    }
    if p.workers[w].Waiting? {
      assert w in p.waiters;
      w := SumPositive(p.workers, InFlight);
    }
    if p.workers[w].Acquired? {
      return Call(w);
    }
    assert HeldBy(p.workers)[w] == Some(p.workers[w].item);
    return Return(w, false);
  }

  lemma {:induction false} NoThrowNoFailure<T(!new), R(!new)>(c: Config<T, R>, ops: seq<Op>)
    requires IsRun(c, ops) && forall k :: 0 <= k < |ops| ==> !ops[k].Throw?
    ensures forall w :: 0 <= w < |After(c, ops).workers| ==> !After(c, ops).workers[w].Failed?
  {
    if ops != [] {
      NoThrowNoFailure(c, ops[..|ops| - 1]);
    }
  }

  /** A run that cannot go on has finished every worker; if no call rejected, every result is in place. */
  lemma {:induction false} RunCompletes<T(!new), R(!new)>(c: Config<T, R>, ops: seq<Op>)
    requires ConfigOk(c) && IsRun(c, ops)
    requires forall op :: !Enabled(c, After(c, ops), op)
    ensures Finished(After(c, ops))
    ensures (forall k :: 0 <= k < |ops| ==> !ops[k].Throw?) ==>
      After(c, ops).results == seq(|c.items|, i requires 0 <= i < |c.items| => Some(c.fn(c.items[i])))
  {
    RunOk(c, ops);
    var p := After(c, ops);
    if !Finished(p) {
      var op := Progress(c, p);
      assert false;
    }
    if forall k :: 0 <= k < |ops| ==> !ops[k].Throw? {
      NoThrowNoFailure(c, ops);
      AllDone(c, p);
    }
  }

  lemma AllDone<T(!new), R(!new)>(c: Config<T, R>, p: Pool<R>)
    requires Invariant(c, p) && forall w :: 0 <= w < |p.workers| ==> p.workers[w].Done?
    ensures p.results == seq(|c.items|, i requires 0 <= i < |c.items| => Some(c.fn(c.items[i])))
  {
    if |c.items| > 0 {
      assert p.workers[0].Done?;
    }
    forall i | 0 <= i < |c.items|
      ensures p.results[i] == Some(c.fn(c.items[i]))
    {
      var held := HeldBy(p.workers);
      assert forall w :: 0 <= w < |held| ==> held[w] == None;
      assert !HeldBySomeone(held, i);
    }
  }

  /** A call is admitted only while fewer than `limit` are in flight. */
  lemma AdmittedWithinLimit<T(!new), R(!new)>(c: Config<T, R>, p: Pool<R>, op: Op, w: nat)
    requires Invariant(c, p) && Enabled(c, p, op) && w < |p.workers|
    requires InFlight(p.workers[w]) == 0 && InFlight(Step(c, p, op).workers[w]) == 1
    ensures w == op.w && p.inFlight < p.limit && Step(c, p, op).inFlight == p.inFlight + 1 <= p.limit
  {
  }

  /**
   * Places are used: once every worker has tested the limit, with items left and
   * no rejection, as many calls are in flight as the limit or the items allow.
   */
  lemma PlacesAreUsed<T(!new), R(!new)>(c: Config<T, R>, p: Pool<R>)
    requires Invariant(c, p) && p.index < |c.items|
    requires forall w :: 0 <= w < |p.workers| ==>
               !p.workers[w].Start? && !p.workers[w].Woken? && !p.workers[w].Failed?
    ensures p.inFlight >= Min(p.limit, |c.items|)
  {
    if p.waiters == [] {
      assert forall w :: 0 <= w < |p.workers| ==> InFlight(p.workers[w]) == 1;
      AllCounted(p.workers);
    }
  }

  lemma {:induction false} AllCounted(workers: seq<Worker>)
    requires forall w :: 0 <= w < |workers| ==> InFlight(workers[w]) == 1
    ensures Sum(workers, InFlight) == |workers|
  {
    if workers != [] {
      AllCounted(workers[..|workers| - 1]);
    }
  }

  /** Without options: a minimum of 1, a maximum of 8, and 2 to start with; options in order are taken as they are. */
  lemma ConfigureKeeps<T, R>(items: seq<T>, fn: T -> R, a: int, b: int, i: int)
    ensures var d := Configure(items, fn, None, None, None); d.min == 1 && d.max == 8 && d.initial == 2
    ensures 1 <= a <= i <= b ==>
              var c := Configure(items, fn, Some(a as real), Some(b as real), Some(i as real));
              c.min == a && c.max == b && c.initial == i
  {
  }

  // ------------------------------------------------------------------
  // Additive increase, multiplicative decrease
  // ------------------------------------------------------------------

  /** How many calls have resolved. */
  function Returns(ops: seq<Op>): nat {
    if ops == [] then 0 else Returns(ops[..|ops| - 1]) + (if ops[|ops| - 1].Return? then 1 else 0)
  }

  /** A call that resolves adds a slot or halves the limit; nothing else moves it. */
  lemma LimitMoves<T(!new), R(!new)>(c: Config<T, R>, p: Pool<R>, op: Op)
    requires Enabled(c, p, op)
    ensures Step(c, p, op).limit ==
            match op
            case Return(_, slow) => if slow then Max(c.min, p.limit / 2) else Min(c.max, p.limit + 1)
            case _ => p.limit
  {
  }

  lemma {:induction false} RunBefore<T(!new), R(!new)>(c: Config<T, R>, before: seq<Op>, more: seq<Op>)
    requires IsRun(c, before + more)
    ensures IsRun(c, before)
    ensures more != [] ==>
              var n, op := |more| - 1, more[|more| - 1];
              && IsRun(c, before + more[..n]) && Enabled(c, After(c, before + more[..n]), op)
              && After(c, before + more) == Step(c, After(c, before + more[..n]), op)
  {
    if more == [] {
      assert before + more == before;
    } else {
      var n := |more| - 1;
      assert (before + more)[..|before + more| - 1] == before + more[..n];
      RunBefore(c, before, more[..n]);
    }
  }

  function Pow2(k: nat): (p: nat)
    ensures p >= 1
  {
    if k == 0 then 1 else 2 * Pow2(k - 1)
  }

  lemma HalveQuotient(a: nat, p: nat)
    requires p >= 1
    ensures a / p / 2 == a / (2 * p)
  {
    var q := a / p;
    assert a == p * q + a % p;
    var h := q / 2;
    assert q == 2 * h + q % 2;
    assert a == (2 * p) * h + (p * (q % 2) + a % p) by {
      assert p * q == p * (2 * h) + p * (q % 2);
      assert p * (2 * h) == (2 * p) * h;
    }
    QuotientIs(a, 2 * p, h, p * (q % 2) + a % p);
  }

  lemma Below(d: nat, q: int, r: nat, p: int)
    requires r < d
    ensures p > q ==> d * q + r < d * p
  {
    if p > q {
      var k := p - q - 1;
      assert d * k >= 0;
      assert d * p == d * (q + 1 + k) == d * q + d + d * k;
    }
  }

  lemma QuotientIs(a: nat, d: nat, q: nat, r: nat)
    requires d >= 1 && a == d * q + r && r < d
    ensures a / d == q
  {
    assert a == d * (a / d) + a % d;
    Below(d, q, r, a / d);
    Below(d, a / d, a % d, q);
  }

  lemma HalvedAgain(lo: int, start: nat, k: nat)
    requires lo >= 1
    ensures Max(lo, Max(lo, start / Pow2(k)) / 2) == Max(lo, start / Pow2(k + 1))
  {
    HalveQuotient(start, Pow2(k));
  }

  ghost predicate AllReturn(ops: seq<Op>, slow: bool) {
    forall i :: 0 <= i < |ops| && ops[i].Return? ==> ops[i].slow == slow
  }

  /** The limit along a series of steps, from numbers alone. */
  function Tracked(lo: int, hi: int, start: int, ops: seq<Op>): int {
    if ops == [] then start
    else
      var limit := Tracked(lo, hi, start, ops[..|ops| - 1]);
      match ops[|ops| - 1]
      case Return(_, slow) => if slow then Max(lo, limit / 2) else Min(hi, limit + 1)
      case _ => limit
  }

  lemma {:induction false} LimitTracked<T(!new), R(!new)>(c: Config<T, R>, before: seq<Op>, more: seq<Op>)
    requires IsRun(c, before + more) && IsRun(c, before)
    ensures After(c, before + more).limit == Tracked(c.min, c.max, After(c, before).limit, more)
  {
    RunBefore(c, before, more);
    if more == [] {
      assert before + more == before;
    } else {
      var n := |more| - 1;
      LimitTracked(c, before, more[..n]);
      LimitNext(c, before, more);
    }
  }

  lemma {:induction false} LimitNext<T(!new), R(!new)>(c: Config<T, R>, before: seq<Op>, more: seq<Op>)
    requires IsRun(c, before + more) && more != []
    ensures var n, op := |more| - 1, more[|more| - 1];
            && IsRun(c, before + more[..n])
            && var limit := After(c, before + more[..n]).limit;
               After(c, before + more).limit ==
               match op
               case Return(_, slow) => if slow then Max(c.min, limit / 2) else Min(c.max, limit + 1)
               case _ => limit
  {
    RunBefore(c, before, more);
    LimitMoves(c, After(c, before + more[..|more| - 1]), more[|more| - 1]);
  }

  lemma {:induction false} FastCallsAdd(lo: int, hi: int, start: int, ops: seq<Op>)
    requires start <= hi && AllReturn(ops, false)
    ensures Tracked(lo, hi, start, ops) == Min(hi, start + Returns(ops))
  {
    if ops != [] {
      FastCallsAdd(lo, hi, start, ops[..|ops| - 1]);
    }
  }

  lemma {:induction false} SlowCallsHalve(lo: int, hi: int, start: nat, ops: seq<Op>)
    requires 1 <= lo <= start && AllReturn(ops, true)
    ensures Tracked(lo, hi, start, ops) == Max(lo, start / Pow2(Returns(ops)))
  {
    if ops != [] {
      var front := ops[..|ops| - 1];
      SlowCallsHalve(lo, hi, start, front);
      HalvedAgain(lo, start, Returns(front));
    }
  }

  lemma {:induction false} AimdOfNumbers(lo: int, hi: int, start: nat, ops: seq<Op>)
    requires 1 <= lo <= start <= hi
    ensures AllReturn(ops, false) ==> Tracked(lo, hi, start, ops) == Min(hi, start + Returns(ops))
    ensures AllReturn(ops, true) ==> Tracked(lo, hi, start, ops) == Max(lo, start / Pow2(Returns(ops)))
  {
    if AllReturn(ops, false) {
      FastCallsAdd(lo, hi, start, ops);
    }
    if AllReturn(ops, true) {
      SlowCallsHalve(lo, hi, start, ops);
    }
  }

  lemma {:induction false} LimitWithin<T(!new), R(!new)>(c: Config<T, R>, ops: seq<Op>)
    requires ConfigOk(c) && IsRun(c, ops)
    ensures c.min <= After(c, ops).limit <= c.max
  {
    RunOk(c, ops);
  }

  /**
   * In every run, from any point on: as long as calls are fast each adds a slot,
   * up to the maximum; as long as they are slow each halves the limit, down to the minimum.
   */
  lemma {:induction false} Aimd<T(!new), R(!new)>(c: Config<T, R>, before: seq<Op>, more: seq<Op>)
    requires ConfigOk(c) && IsRun(c, before + more)
    ensures IsRun(c, before)
    ensures AllReturn(more, false) ==>
              After(c, before + more).limit == Min(c.max, After(c, before).limit + Returns(more))
    ensures AllReturn(more, true) ==>
              After(c, before + more).limit == Max(c.min, After(c, before).limit / Pow2(Returns(more)))
  {
    RunBefore(c, before, more);
    LimitWithin(c, before);
    LimitTracked(c, before, more);
    AimdOfNumbers(c.min, c.max, After(c, before).limit, more);
  }

  /** So a run of fast calls only, or of slow ones only, has one limit whatever the interleaving. */
  lemma {:induction false} AimdFromStart<T(!new), R(!new)>(c: Config<T, R>, ops: seq<Op>)
    requires ConfigOk(c) && IsRun(c, ops)
    ensures AllReturn(ops, false) ==> After(c, ops).limit == Min(c.max, c.initial + Returns(ops))
    ensures AllReturn(ops, true) ==> After(c, ops).limit == Max(c.min, c.initial / Pow2(Returns(ops)))
  {
    TrackedFromStart(c, ops);
    AimdOfNumbers(c.min, c.max, c.initial, ops);
  }

  lemma {:induction false} TrackedFromStart<T(!new), R(!new)>(c: Config<T, R>, ops: seq<Op>)
    requires IsRun(c, ops)
    ensures After(c, ops).limit == Tracked(c.min, c.max, c.initial, ops)
  {
    StartLimit(c);
    assert [] + ops == ops;
    LimitTracked(c, [], ops);
  }

  lemma {:induction false} StartLimit<T(!new), R(!new)>(c: Config<T, R>)
    ensures IsRun(c, []) && After(c, []).limit == c.initial
  {
  }

  // ------------------------------------------------------------------
  // The shared variables
  // ------------------------------------------------------------------

  class Shared<T(!new), R(!new)> {
    const config: Config<T, R>
    const results: array<Option<R>>
    var limit: int
    var inFlight: int
    var index: nat
    var waiters: seq<nat>
    var workers: seq<Worker>

    ghost function View(): Pool<R>
      reads this, results
    {
      Pool(limit, inFlight, index, waiters, results[..], workers)
    }

    constructor (items: seq<T>, fn: T -> R, min: Option<real>, max: Option<real>, initial: Option<real>)
      ensures config == Configure(items, fn, min, max, initial) && fresh(results)
      ensures View() == Initial(config) && Invariant(config, View())
    {
      var c := Configure(items, fn, min, max, initial);
      config := c;
      results := new Option<R>[|items|](_ => None);
      limit, inFlight, index, waiters := c.initial, 0, 0, [];
      workers := seq(WorkerCount(c), _ => Start);
      new;
      assert results[..] == seq(|items|, _ => None);
      InitialOk(config);
    }

    method TakePlace(w: nat, item: nat)
      requires w < |workers|
      modifies this
      ensures View() == Acquire(old(View()), w, item)
    {
      if inFlight >= limit {
        waiters := waiters + [w];
        workers := workers[w := Waiting(item)];
      } else {
        inFlight := inFlight + 1;
        workers := workers[w := Acquired(item)];
      }
    }

    method GivePlaceBack()
      modifies this
      ensures View() == Release(old(View()))
    {
      inFlight := inFlight - 1;
      workers := Wake(workers, waiters);
      waiters := [];
    }

    method NextItem(w: nat)
      requires w < |workers|
      modifies this
      ensures View() == LoopHead(config, old(View()), w)
    {
      if index < |config.items| {
        index := index + 1;
        TakePlace(w, index - 1);
      } else {
        workers := workers[w := Done];
      }
    }

    method OnBegin(w: nat)
      requires Invariant(config, View()) && Enabled(config, View(), Begin(w))
      modifies this
      ensures View() == Step(config, old(View()), Begin(w)) && Invariant(config, View())
    {
      StepOk(config, View(), Begin(w));
      NextItem(w);
    }

    method OnResume(w: nat)
      requires Invariant(config, View()) && Enabled(config, View(), Resume(w))
      modifies this
      ensures View() == Step(config, old(View()), Resume(w)) && Invariant(config, View())
    {
      StepOk(config, View(), Resume(w));
      TakePlace(w, workers[w].item);
    }

    method OnCall(w: nat)
      requires Invariant(config, View()) && Enabled(config, View(), Call(w))
      modifies this
      ensures View() == Step(config, old(View()), Call(w)) && Invariant(config, View())
    {
      StepOk(config, View(), Call(w));
      workers := workers[w := Running(workers[w].item)];
    }

    method OnReturn(w: nat, elapsed: int, targetLatencyMs: int)
      requires Invariant(config, View()) && Enabled(config, View(), Return(w, elapsed > targetLatencyMs))
      modifies this, results
      ensures View() == Step(config, old(View()), Return(w, elapsed > targetLatencyMs)) && Invariant(config, View())
      ensures limit == if elapsed > targetLatencyMs then Max(config.min, old(limit) / 2)
                       else Min(config.max, old(limit) + 1)
    {
      var item := workers[w].item;
      StepOk(config, View(), Return(w, elapsed > targetLatencyMs));
      ghost var stored := Store(config, View(), item, elapsed > targetLatencyMs);
      results[item] := Some(config.fn(config.items[item]));
      limit := if elapsed > targetLatencyMs then Max(config.min, limit / 2) else Min(config.max, limit + 1);
      assert View() == stored;
      GivePlaceBack();
      NextItem(w);
    }

    method OnThrow(w: nat)
      requires Invariant(config, View()) && Enabled(config, View(), Throw(w))
      modifies this
      ensures View() == Step(config, old(View()), Throw(w)) && Invariant(config, View())
    {
      StepOk(config, View(), Throw(w));
      workers := workers[w := Failed(workers[w].item)];
      GivePlaceBack();
    }
  }
}
