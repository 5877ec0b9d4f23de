/**
 * The lazily advanced circuit breaker of one RPC endpoint, and the registry of
 * all endpoints (src/rpc-circuit-state.ts, 32-65 and 115-248).
 *
 * A call reads the clock up to three times, and time passes in between, not
 * least while listeners run. Readings are epoch milliseconds.
 */
module CircuitBreaker {
  import opened Common

  datatype State = Closed | Open | HalfOpen

  datatype Entry = Entry(
    state: State, failureCount: nat, lastFailureAt: Option<int>, lastSuccessAt: Option<int>, cooldownUntil: Option<int>)

  datatype Transition = Transition(from: State, to: State)

  /** One endpoint: its entry, if any, and the transitions its listeners were told. */
  datatype Scope = Scope(entry: Option<Entry>, emitted: seq<Transition>)

  const FRESH := Entry(Closed, 0, None, None, None)

  // ------------------------------------------------------------------
  // The operations on one scope
  // ------------------------------------------------------------------

  function Stored(s: Scope): State {
    if s.entry.Some? then s.entry.value.state else Closed
  }

  function Emit(s: Scope, from: State, to: State): Scope {
    if from == to then s else s.(emitted := s.emitted + [Transition(from, to)])
  }

  /** `cooldownUntil && now >= cooldownUntil`: null and 0 are both falsy. */
  predicate CooledDown(e: Entry, now: int) {
    e.cooldownUntil.Some? && e.cooldownUntil.value != 0 && now >= e.cooldownUntil.value
  }

  /** getCircuitState: advances an open circuit whose cooldown is over. */
  function Read(s: Scope, now: int): Scope {
    if s.entry.Some? && s.entry.value.state == Open && CooledDown(s.entry.value, now)
    then Emit(s.(entry := Some(s.entry.value.(state := HalfOpen))), Open, HalfOpen)
    else s
  }

  /** `first` is read by getCircuitState, `second` becomes the time of the success, `third` is read again. */
  function RecordSuccess(s: Scope, first: int, second: int, third: int): Scope {
    if s.entry.None? then s
    else
      var s1 := Read(s, first);
      var previous := Stored(s1);
      var s2 := s1.(entry := Some(s1.entry.value.(
        failureCount := 0, lastSuccessAt := Some(second), state := Closed, cooldownUntil := None)));
      if previous != Closed then Emit(Read(s2, third), previous, Closed) else s2
  }

  /** `first` is the time of the failure; getCircuitState reads `second` before it and `third` for the listeners. */
  function RecordFailure(s: Scope, first: int, second: int, third: int, threshold: int, cooldown: int): Scope {
    var s1 := Read(if s.entry.None? then s.(entry := Some(FRESH)) else s, second);
    var previous := Stored(s1);
    var e := s1.entry.value;
    var counted := e.(failureCount := e.failureCount + 1, lastFailureAt := Some(first));
    if e.state == HalfOpen then
      var s2 := s1.(entry := Some(counted.(state := Open, cooldownUntil := Some(first + cooldown))));
      Emit(if previous != Open then Read(s2, third) else s2, previous, Open)
    else
      var s2 := s1.(entry := Some(
        if counted.failureCount >= threshold then counted.(state := Open, cooldownUntil := Some(first + cooldown))
        else counted));
      if Stored(s2) != previous then
        var s3 := Read(s2, third);
        Emit(s3, previous, Stored(s3))
      else s2
  }

  function Reset(s: Scope, now: int): Scope {
    if s.entry.None? then s
    else
      var s1 := Read(s, now);
      Emit(s1.(entry := None), Stored(s1), Closed)
  }

  // ------------------------------------------------------------------
  // Histories
  // ------------------------------------------------------------------

  datatype Action = Failure | Success | Restart | Look

  /** A call and what it read on the clock. */
  datatype Event = Event(action: Action, first: nat, second: nat, third: nat)

  function Step(s: Scope, e: Event, threshold: int, cooldown: int): Scope {
    match e.action
    case Failure => RecordFailure(s, e.first, e.second, e.third, threshold, cooldown)
    case Success => RecordSuccess(s, e.first, e.second, e.third)
    case Restart => Reset(s, e.first)
    case Look => Read(s, e.first)
  }

  function Run(h: seq<Event>, threshold: int, cooldown: int): Scope {
    if h == [] then Scope(None, []) else Step(Run(h[..|h| - 1], threshold, cooldown), h[|h| - 1], threshold, cooldown)
  }

  function LastTime(h: seq<Event>): nat {
    if h == [] then 0 else h[|h| - 1].third
  }

  /** The clock never runs backwards, within a call or from one call to the next. */
  ghost predicate Ordered(h: seq<Event>) {
    && (forall i :: 0 <= i < |h| ==> h[i].first <= h[i].second <= h[i].third)
    && forall i, j :: 0 <= i < j < |h| ==> h[i].third <= h[j].first
  }

  /** No call takes longer than this. */
  ghost predicate Within(h: seq<Event>, longest: nat) {
    forall i :: 0 <= i < |h| ==> h[i].third - h[i].first <= longest
  }

  /** Failures since the last success or reset. */
  function FailuresSince(h: seq<Event>): nat {
    if h == [] then 0
    else
      match h[|h| - 1].action
      case Failure => FailuresSince(h[..|h| - 1]) + 1
      case Success => 0
      case Restart => 0
      case Look => FailuresSince(h[..|h| - 1])
  }

  /** The time recorded for the last failure. */
  function LastFailure(h: seq<Event>): nat {
    if h == [] then 0
    else if h[|h| - 1].action.Failure? then h[|h| - 1].first
    else LastFailure(h[..|h| - 1])
  }

  /** The cooldown after a failure is over; a deadline of 0 counts as none. */
  predicate Waited(failure: int, cooldown: int, now: int) {
    failure + cooldown != 0 && now >= failure + cooldown
  }

  /** Failures it takes to open the circuit: the first one opens it for any threshold below 1. */
  function Allowed(threshold: int): nat {
    if threshold < 1 then 1 else threshold
  }

  /** What an observer at `now` should be told, from the history alone. */
  function ClosedForm(h: seq<Event>, now: int, threshold: int, cooldown: int): State {
    if FailuresSince(h) < Allowed(threshold) then Closed
    else if Waited(LastFailure(h), cooldown, now) then HalfOpen
    else Open
  }

  predicate Legal(t: Transition) {
    t in {Transition(Closed, Open), Transition(Open, HalfOpen), Transition(HalfOpen, Open),
          Transition(HalfOpen, Closed), Transition(Open, Closed)}
  }

  /** The transitions lead from `from` to `to` over legal edges, each starting where the last ended. */
  predicate Chain(ts: seq<Transition>, from: State, to: State) {
    if ts == [] then from == to
    else
      var last := ts[|ts| - 1];
      Legal(last) && last.to == to && Chain(ts[..|ts| - 1], from, last.from)
  }

  lemma {:induction false} ChainExtends(s: Scope, from: State, to: State)
    requires Chain(s.emitted, Closed, from) && (from == to || Legal(Transition(from, to)))
    ensures Chain(Emit(s, from, to).emitted, Closed, to)
  {
    if from != to {
      var ts := s.emitted + [Transition(from, to)];
      assert ts[..|ts| - 1] == s.emitted;
    }
  }

  lemma {:induction false} ChainEndUnique(ts: seq<Transition>, from: State, a: State, b: State)
    requires Chain(ts, from, a) && Chain(ts, from, b)
    ensures a == b
  {
  }

  // ------------------------------------------------------------------
  // The stored and the reported state
  // ------------------------------------------------------------------

  /** What holds of a scope after a history, the last clock reading of which was `latest`. */
  ghost predicate Reflects(s: Scope, failures: nat, last: nat, latest: nat, threshold: int, cooldown: int) {
    && (s.entry.None? ==> failures == 0)
    && (s.entry.Some? ==>
          var e := s.entry.value;
          && e.failureCount == failures
          && (e.state == Closed <==> failures < Allowed(threshold))
          && (e.state != Closed ==> e.cooldownUntil == Some(last + cooldown))
          && (e.state == HalfOpen ==> Waited(last, cooldown, latest)))
  }

  lemma ReadReflects(
    s: Scope, failures: nat, last: nat, latest: nat, now: nat, threshold: int, cooldown: int)
    requires Reflects(s, failures, last, latest, threshold, cooldown) && latest <= now
    ensures Reflects(Read(s, now), failures, last, now, threshold, cooldown)
    ensures Stored(Read(s, now)) ==
            if failures < Allowed(threshold) then Closed
            else if Waited(last, cooldown, now) then HalfOpen
            else Open
  {
  }

  /** The scope a failure starts from: a missing entry is made. */
  function Begun(s: Scope): Scope {
    if s.entry.None? then s.(entry := Some(FRESH)) else s
  }

  lemma FailureReflects(
    s: Scope, failures: nat, last: nat, latest: nat, e: Event, threshold: int, cooldown: int)
    requires Reflects(s, failures, last, latest, threshold, cooldown)
    requires latest <= e.first <= e.second <= e.third
    ensures Reflects(RecordFailure(s, e.first, e.second, e.third, threshold, cooldown),
                     failures + 1, e.first, e.third, threshold, cooldown)
  {
    ReadReflects(Begun(s), failures, last, latest, e.second, threshold, cooldown);
  }

  lemma StepReflects(
    s: Scope, failures: nat, last: nat, latest: nat, e: Event, threshold: int, cooldown: int)
    requires Reflects(s, failures, last, latest, threshold, cooldown)
    requires latest <= e.first <= e.second <= e.third
    ensures Reflects(
              Step(s, e, threshold, cooldown),
              match e.action case Failure => failures + 1 case Look => failures case _ => 0,
              if e.action.Failure? then e.first else last, e.third, threshold, cooldown)
  {
    FailureReflects(s, failures, last, latest, e, threshold, cooldown);
    ReadReflects(s, failures, last, latest, e.first, threshold, cooldown);
  }

  lemma {:induction false} RunReflects(h: seq<Event>, threshold: int, cooldown: int)
    requires Ordered(h)
    ensures Reflects(Run(h, threshold, cooldown), FailuresSince(h), LastFailure(h), LastTime(h), threshold, cooldown)
  {
    if h != [] {
      var h0, e := h[..|h| - 1], h[|h| - 1];
      var s, failures, last := Run(h0, threshold, cooldown), FailuresSince(h0), LastFailure(h0);
      RunReflects(h0, threshold, cooldown);
      assert h0 != [] ==> h[|h0| - 1].third <= e.first;
      StepReflects(s, failures, last, LastTime(h0), e, threshold, cooldown);
    }
  }

  /** After any history the state reported at any later time is the closed form, however long the calls took. */
  lemma {:induction false} ReportedState(h: seq<Event>, now: nat, threshold: int, cooldown: int)
    requires Ordered(h) && LastTime(h) <= now
    ensures Stored(Read(Run(h, threshold, cooldown), now)) == ClosedForm(h, now, threshold, cooldown)
  {
    var s := Run(h, threshold, cooldown);
    RunReflects(h, threshold, cooldown);
    ReadReflects(s, FailuresSince(h), LastFailure(h), LastTime(h), now, threshold, cooldown);
  }

  /** The time of the last failure since a reset; an endpoint is known from its first failure on. */
  function FailedAt(h: seq<Event>): Option<nat> {
    if h == [] then None
    else
      var before, e := FailedAt(h[..|h| - 1]), h[|h| - 1];
      match e.action
      case Failure => Some(e.first)
      case Restart => None
      case _ => before
  }

  /** The time of the last success of a known endpoint since a reset. */
  function SucceededAt(h: seq<Event>): Option<nat> {
    if h == [] then None
    else
      var before, e := SucceededAt(h[..|h| - 1]), h[|h| - 1];
      match e.action
      case Success => if FailedAt(h[..|h| - 1]).Some? then Some(e.second) else before
      case Restart => None
      case _ => before
  }

  /** Which endpoints are known, and the times reported of them. */
  ghost predicate TimesAre(s: Scope, failed: Option<nat>, succeeded: Option<nat>) {
    && (s.entry.Some? <==> failed.Some?)
    && (s.entry.Some? ==> s.entry.value.lastFailureAt == failed && s.entry.value.lastSuccessAt == succeeded)
    && (s.entry.None? ==> succeeded.None?)
  }

  lemma FailureTimes(s: Scope, e: Event, threshold: int, cooldown: int)
    ensures var b, r := Begun(s).entry.value, RecordFailure(s, e.first, e.second, e.third, threshold, cooldown);
            && r.entry.Some? && r.entry.value.lastFailureAt == Some(e.first)
            && r.entry.value.lastSuccessAt == b.lastSuccessAt
  {
  }

  /** In every history an endpoint reports when it last failed and when it last succeeded after that was first noted. */
  lemma {:induction false} TimesReported(h: seq<Event>, threshold: int, cooldown: int)
    ensures TimesAre(Run(h, threshold, cooldown), FailedAt(h), SucceededAt(h))
  {
    if h != [] {
      var before, e := h[..|h| - 1], h[|h| - 1];
      TimesReported(before, threshold, cooldown);
      StepTimes(Run(before, threshold, cooldown), FailedAt(before), SucceededAt(before), e, threshold, cooldown);
    }
  }

  lemma StepTimes(
    s: Scope, failed: Option<nat>, succeeded: Option<nat>, e: Event, threshold: int, cooldown: int)
    requires TimesAre(s, failed, succeeded)
    ensures TimesAre(
              Step(s, e, threshold, cooldown),
              match e.action case Failure => Some(e.first) case Restart => None case _ => failed,
              match e.action
              case Success => if failed.Some? then Some(e.second) else succeeded
              case Restart => None
              case _ => succeeded)
  {
    FailureTimes(s, e, threshold, cooldown);
  }

  // ------------------------------------------------------------------
  // The transitions told to listeners
  // ------------------------------------------------------------------

  /** A failure now opens the circuit: it is the last one allowed, or a failed probe. */
  predicate Opens(before: seq<Event>, second: int, threshold: int, cooldown: int) {
    || FailuresSince(before) + 1 == Allowed(threshold)
    || (FailuresSince(before) >= Allowed(threshold) && Waited(LastFailure(before), cooldown, second))
  }

  /** Call k opens the circuit and takes so long that its own cooldown is over before listeners are told. */
  predicate OpensLate(h: seq<Event>, k: nat, threshold: int, cooldown: int)
    requires k < |h|
  {
    && h[k].action.Failure? && Opens(h[..k], h[k].second, threshold, cooldown)
    && Waited(h[k].first, cooldown, h[k].third)
  }

  /** No state ends a legal chain along these transitions. */
  ghost predicate Broken(ts: seq<Transition>) {
    forall end :: !Chain(ts, Closed, end)
  }

  lemma StaysBroken(ts: seq<Transition>, t: Transition)
    requires Broken(ts)
    ensures Broken(ts + [t])
  {
    assert (ts + [t])[..|ts|] == ts;
  }

  lemma ReadStaysBroken(s: Scope, now: int)
    requires Broken(s.emitted)
    ensures Broken(Read(s, now).emitted)
  {
    StaysBroken(s.emitted, Transition(Open, HalfOpen));
  }

  lemma FailureStaysBroken(s: Scope, e: Event, threshold: int, cooldown: int)
    requires Broken(s.emitted)
    ensures Broken(RecordFailure(s, e.first, e.second, e.third, threshold, cooldown).emitted)
  {
    var s1 := Read(Begun(s), e.second);
    var ts := s1.emitted;
    ReadStaysBroken(Begun(s), e.second);
    StaysBroken(ts, Transition(Open, HalfOpen));
    forall t: Transition
      ensures Broken(ts + [t]) && Broken(ts + [Transition(Open, HalfOpen)] + [t])
    {
      StaysBroken(ts, t);
      StaysBroken(ts + [Transition(Open, HalfOpen)], t);
    }
  }

  lemma StepStaysBroken(s: Scope, e: Event, threshold: int, cooldown: int)
    requires Broken(s.emitted)
    ensures Broken(Step(s, e, threshold, cooldown).emitted)
  {
    var s1 := Read(s, e.first);
    ReadStaysBroken(s, e.first);
    match e.action
    case Failure => FailureStaysBroken(s, e, threshold, cooldown);
    case Success => StaysBroken(s1.emitted, Transition(Stored(s1), Closed));
    case Restart => StaysBroken(s1.emitted, Transition(Stored(s1), Closed));
    case Look =>
  }

  lemma ReadChains(s: Scope, now: int)
    requires Chain(s.emitted, Closed, Stored(s))
    ensures Chain(Read(s, now).emitted, Closed, Stored(Read(s, now)))
  {
    ChainExtends(s, Stored(s), Stored(Read(s, now)));
  }

  /** What the circuit is and what listeners were told once a failure has opened it. */
  function Opening(s1: Scope, first: int, third: int, cooldown: int): (State, seq<Transition>) {
    if !Waited(first, cooldown, third) then (Open, s1.emitted + [Transition(Stored(s1), Open)])
    else
      var told := s1.emitted + [Transition(Open, HalfOpen)];
      (HalfOpen, told + [if Stored(s1) == Closed then Transition(Closed, HalfOpen) else Transition(HalfOpen, Open)])
  }

  /** A failure leaves an open circuit open, opens it, or is only counted. */
  lemma FailureTells(s: Scope, e: Event, threshold: int, cooldown: int)
    ensures var s1 := Read(Begun(s), e.second);
            var r := RecordFailure(s, e.first, e.second, e.third, threshold, cooldown);
            (Stored(r), r.emitted) ==
            if Stored(s1) == Open || (Stored(s1) == Closed && s1.entry.value.failureCount + 1 < threshold)
            then (Stored(s1), s1.emitted)
            else Opening(s1, e.first, e.third, cooldown)
  {
  }

  /** Opening the circuit in time tells one legal transition; opening it late breaks the chain for good. */
  lemma OpeningChains(s1: Scope, first: int, third: int, cooldown: int)
    requires Chain(s1.emitted, Closed, Stored(s1)) && Stored(s1) != Open
    ensures var (state, told) := Opening(s1, first, third, cooldown);
            if Waited(first, cooldown, third) then Broken(told) else Chain(told, Closed, state)
  {
    var ts, ts1 := s1.emitted, s1.emitted + [Transition(Open, HalfOpen)];
    var told := Opening(s1, first, third, cooldown).1;
    ChainExtends(s1, Stored(s1), Open);
    if Waited(first, cooldown, third) {
      forall end: State
        ensures !Chain(told, Closed, end)
      {
        assert told[..|ts1|] == ts1 && ts1[..|ts|] == ts;
        if Stored(s1) == HalfOpen && Chain(ts, Closed, Open) {
          ChainEndUnique(ts, Closed, Open, HalfOpen);
        }
      }
    }
  }

  lemma FailureChains(
    s: Scope, failures: nat, last: nat, latest: nat, e: Event, threshold: int, cooldown: int)
    requires Reflects(s, failures, last, latest, threshold, cooldown)
    requires Chain(s.emitted, Closed, Stored(s)) && latest <= e.first <= e.second <= e.third
    ensures var r := RecordFailure(s, e.first, e.second, e.third, threshold, cooldown);
            var allowed := Allowed(threshold);
            var opens := failures + 1 == allowed || (failures >= allowed && Waited(last, cooldown, e.second));
            if opens && Waited(e.first, cooldown, e.third) then Broken(r.emitted)
            else Chain(r.emitted, Closed, Stored(r))
  {
    var s1 := Read(Begun(s), e.second);
    ReadReflects(Begun(s), failures, last, latest, e.second, threshold, cooldown);
    ReadChains(Begun(s), e.second);
    FailureTells(s, e, threshold, cooldown);
    if Stored(s1) != Open {
      OpeningChains(s1, e.first, e.third, cooldown);
    }
  }

  /** Success and reset close the circuit and tell the transition, if it is one. */
  lemma ClosingTells(s: Scope, e: Event, threshold: int, cooldown: int)
    requires e.action.Success? || e.action.Restart?
    ensures var s1, r := Read(s, e.first), Step(s, e, threshold, cooldown);
            Stored(r) == Closed && r.emitted == Emit(s1, Stored(s1), Closed).emitted
  {
  }

  lemma StepChains(s: Scope, e: Event, threshold: int, cooldown: int)
    requires Chain(s.emitted, Closed, Stored(s)) && !e.action.Failure?
    ensures Chain(Step(s, e, threshold, cooldown).emitted, Closed, Stored(Step(s, e, threshold, cooldown)))
  {
    var s1 := Read(s, e.first);
    ReadChains(s, e.first);
    if !e.action.Look? {
      ClosingTells(s, e, threshold, cooldown);
      ChainExtends(s1, Stored(s1), Closed);
    }
  }

  /** Some call of the history opened the circuit late. */
  ghost predicate Late(h: seq<Event>, threshold: int, cooldown: int) {
    exists k :: 0 <= k < |h| && OpensLate(h, k, threshold, cooldown)
  }

  lemma LateBefore(h: seq<Event>, threshold: int, cooldown: int)
    requires h != []
    ensures Late(h, threshold, cooldown) <==>
            Late(h[..|h| - 1], threshold, cooldown) || OpensLate(h, |h| - 1, threshold, cooldown)
  {
    var h0 := h[..|h| - 1];
    forall k: nat | k < |h0|
      ensures OpensLate(h, k, threshold, cooldown) == OpensLate(h0, k, threshold, cooldown)
    {
      assert h0[..k] == h[..k];
    }
    if k :| 0 <= k < |h0| && OpensLate(h0, k, threshold, cooldown) {
      assert OpensLate(h, k, threshold, cooldown);
    }
  }

  /** Along every history the transitions chain, or break at the first late opening and stay broken. */
  lemma {:induction false} ChainOrBroken(h: seq<Event>, threshold: int, cooldown: int)
    requires Ordered(h)
    ensures if Late(h, threshold, cooldown) then Broken(Run(h, threshold, cooldown).emitted)
            else Chain(Run(h, threshold, cooldown).emitted, Closed, Stored(Run(h, threshold, cooldown)))
  {
    if h != [] {
      var n := |h| - 1;
      var h0, e := h[..n], h[n];
      var s := Run(h0, threshold, cooldown);
      ChainOrBroken(h0, threshold, cooldown);
      LateBefore(h, threshold, cooldown);
      if Late(h0, threshold, cooldown) {
        StepStaysBroken(s, e, threshold, cooldown);
      } else if e.action.Failure? {
        RunReflects(h0, threshold, cooldown);
        assert h0 != [] ==> h[n - 1].third <= e.first;
        FailureChains(s, FailuresSince(h0), LastFailure(h0), LastTime(h0), e, threshold, cooldown);
      } else {
        StepChains(s, e, threshold, cooldown);
      }
    }
  }

  /** The transitions of a history chain from closed to the stored state exactly when no call opened late. */
  lemma {:induction false} ChainsExactly(h: seq<Event>, threshold: int, cooldown: int)
    requires Ordered(h)
    ensures Chain(Run(h, threshold, cooldown).emitted, Closed, Stored(Run(h, threshold, cooldown))) <==>
            forall k :: 0 <= k < |h| ==> !OpensLate(h, k, threshold, cooldown)
  {
    ChainOrBroken(h, threshold, cooldown);
  }

  /** As many failures as are allowed, all at time t, the last of which takes `longest`. */
  function SlowFailures(n: nat, t: nat, longest: nat): (h: seq<Event>)
    ensures |h| == n && Ordered(h) && Within(h, longest)
  {
    seq(n, i => Event(Failure, t, t, if i == n - 1 then t + longest else t))
  }

  lemma {:induction false} AllFailures(h: seq<Event>)
    requires forall i :: 0 <= i < |h| ==> h[i].action.Failure?
    ensures FailuresSince(h) == |h|
  {
    if h != [] {
      AllFailures(h[..|h| - 1]);
    }
  }

  lemma OpeningLate(threshold: int, cooldown: int, t: nat, longest: nat)
    requires Waited(t, cooldown, t + longest)
    ensures var n := Allowed(threshold);
            OpensLate(SlowFailures(n, t, longest), n - 1, threshold, cooldown)
  {
    AllFailures(SlowFailures(Allowed(threshold), t, longest)[..Allowed(threshold) - 1]);
  }

  /**
   * When no call reads the clock more than `longest` apart, the transitions told
   * to listeners chain in every history exactly when that is less than the cooldown.
   */
  lemma TransitionsChainExactly(threshold: int, cooldown: int, longest: nat)
    ensures (forall h :: Ordered(h) && Within(h, longest) ==>
              Chain(Run(h, threshold, cooldown).emitted, Closed, Stored(Run(h, threshold, cooldown))))
            <==> longest < cooldown
  {
    if longest < cooldown {
      forall h | Ordered(h) && Within(h, longest)
        ensures Chain(Run(h, threshold, cooldown).emitted, Closed, Stored(Run(h, threshold, cooldown)))
      {
        ChainsExactly(h, threshold, cooldown);
      }
    } else {
      var t := if cooldown == -1 then 2 else 1;
      OpeningLate(threshold, cooldown, t, longest);
      ChainsExactly(SlowFailures(Allowed(threshold), t, longest), threshold, cooldown);
    }
  }

  lemma {:induction false} QuietBelow(h: seq<Event>, threshold: int, cooldown: int)
    requires |h| < Allowed(threshold) && forall i :: 0 <= i < |h| ==> h[i].action.Failure?
    ensures var s := Run(h, threshold, cooldown);
            && s.emitted == [] && Stored(s) == Closed
            && (s.entry.None? ==> h == []) && (s.entry.Some? ==> s.entry.value.failureCount == |h|)
  {
    if h != [] {
      QuietBelow(h[..|h| - 1], threshold, cooldown);
    }
  }

  /** The failure that opens the circuit, after others that did not. */
  lemma {:induction false} EdgeTold(before: seq<Event>, e: Event, threshold: int, cooldown: int)
    requires |before| + 1 == Allowed(threshold) && forall i :: 0 <= i < |before| ==> before[i].action.Failure?
    requires e.action.Failure? && Waited(e.first, cooldown, e.third)
    ensures Step(Run(before, threshold, cooldown), e, threshold, cooldown).emitted ==
            [Transition(Open, HalfOpen), Transition(Closed, HalfOpen)]
  {
    QuietBelow(before, threshold, cooldown);
    FailureTells(Run(before, threshold, cooldown), e, threshold, cooldown);
  }

  /**
   * An opening failure that takes as long as its cooldown, for every threshold:
   * listeners hear of open to half-open and then of closed to half-open.
   */
  lemma {:induction false} IllegalEdge(threshold: int, cooldown: int, t: nat, longest: nat)
    requires Waited(t, cooldown, t + longest)
    ensures var s := Run(SlowFailures(Allowed(threshold), t, longest), threshold, cooldown);
            s.emitted == [Transition(Open, HalfOpen), Transition(Closed, HalfOpen)] && Broken(s.emitted)
  {
    var h := SlowFailures(Allowed(threshold), t, longest);
    EdgeTold(h[..|h| - 1], h[|h| - 1], threshold, cooldown);
    OpeningLate(threshold, cooldown, t, longest);
    ChainOrBroken(h, threshold, cooldown);
  }

  /** In particular with a cooldown of 1 ms and a failure at 100 that reads the clock again at 101. */
  lemma SlowOpeningBreaks()
    ensures var s := Run([Event(Failure, 100, 100, 101)], 1, 1);
            s.emitted == [Transition(Open, HalfOpen), Transition(Closed, HalfOpen)] && Broken(s.emitted)
  {
    assert SlowFailures(1, 100, 1) == [Event(Failure, 100, 100, 101)];
    IllegalEdge(1, 1, 100, 1);
  }

  /** A failed probe as slow as its cooldown: an open circuit is told last, and it is half-open. */
  lemma SlowProbeBreaks()
    ensures var s := Run([Event(Failure, 5, 5, 5), Event(Failure, 20, 20, 30)], 1, 10);
            && s.emitted == [Transition(Closed, Open), Transition(Open, HalfOpen),
                             Transition(Open, HalfOpen), Transition(HalfOpen, Open)]
            && Stored(s) == HalfOpen && Broken(s.emitted)
  {
    var h := [Event(Failure, 5, 5, 5), Event(Failure, 20, 20, 30)];
    assert h[..1] == [h[0]] && [h[0]][..0] == [];
    assert Run([], 1, 10) == Scope(None, []);
    assert Run([h[0]], 1, 10).emitted == [Transition(Closed, Open)];
    assert FailuresSince([]) == 0 && FailuresSince([h[0]]) == 1 && LastFailure([h[0]]) == 5;
    assert OpensLate(h, 1, 1, 10);
    ChainOrBroken(h, 1, 10);
  }

  // ------------------------------------------------------------------
  // The registry: module state, updated in place
  // ------------------------------------------------------------------

  class Registry {
    var circuits: map<string, Entry>
    ghost var told: map<string, seq<Transition>>

    ghost function View(scope: string): Scope
      reads this
    {
      Scope(if scope in circuits then Some(circuits[scope]) else None, if scope in told then told[scope] else [])
    }

    constructor ()
      ensures forall scope :: View(scope) == Scope(None, [])
    {
      circuits := map[];
      told := map[];
    }

    /** Replaces one scope's entry. */
    method Put(scope: string, entry: Entry)
      modifies this`circuits
      ensures scope in circuits && circuits[scope] == entry
      ensures View(scope) == old(View(scope)).(entry := Some(entry))
      ensures forall other :: other != scope ==> View(other) == old(View(other))
    {
      circuits := circuits[scope := entry];
    }

    method EmitTransition(scope: string, from: State, to: State)
      modifies this`told
      ensures View(scope) == Emit(old(View(scope)), from, to)
      ensures forall other :: other != scope ==> View(other) == old(View(other))
    {
      if from != to {
        told := told[scope := (if scope in told then told[scope] else []) + [Transition(from, to)]];
      }
    }

    method GetCircuitState(scope: string, now: int) returns (state: State)
      modifies this
      ensures View(scope) == Read(old(View(scope)), now) && state == Stored(View(scope))
      ensures forall other :: other != scope ==> View(other) == old(View(other))
    {
      if scope !in circuits {
        return Closed;
      }
      if circuits[scope].state == Open && CooledDown(circuits[scope], now) {
        Put(scope, circuits[scope].(state := HalfOpen));
        EmitTransition(scope, Open, HalfOpen);
      }
      state := circuits[scope].state;
    }

    method Succeeded(scope: string, first: int, second: int, third: int)
      modifies this
      ensures View(scope) == RecordSuccess(old(View(scope)), first, second, third)
      ensures forall other :: other != scope ==> View(other) == old(View(other))
    {
      if scope !in circuits {
        return;
      }
      var previous := GetCircuitState(scope, first);
      Put(scope, circuits[scope].(
        failureCount := 0, lastSuccessAt := Some(second), state := Closed, cooldownUntil := None));
      if previous != Closed {
        var _ := GetCircuitState(scope, third);
        EmitTransition(scope, previous, Closed);
      }
    }

    method Failed(scope: string, first: int, second: int, third: int, threshold: int, cooldown: int)
      modifies this
      ensures View(scope) == RecordFailure(old(View(scope)), first, second, third, threshold, cooldown)
      ensures forall other :: other != scope ==> View(other) == old(View(other))
    {
      if scope !in circuits {
        Put(scope, FRESH);
      }
      var previous := GetCircuitState(scope, second);
      var e := circuits[scope];
      var counted := e.(failureCount := e.failureCount + 1, lastFailureAt := Some(first));
      if e.state == HalfOpen {
        Put(scope, counted.(state := Open, cooldownUntil := Some(first + cooldown)));
        if previous != Open {
          var _ := GetCircuitState(scope, third);
        }
        EmitTransition(scope, previous, Open);
        return;
      }
      if counted.failureCount >= threshold {
        counted := counted.(state := Open, cooldownUntil := Some(first + cooldown));
      }
      Put(scope, counted);
      if circuits[scope].state != previous {
        var _ := GetCircuitState(scope, third);
        EmitTransition(scope, previous, circuits[scope].state);
      }
    }

    method ResetCircuit(scope: string, now: int)
      modifies this
      ensures View(scope) == Reset(old(View(scope)), now)
      ensures forall other :: other != scope ==> View(other) == old(View(other))
    {
      if scope !in circuits {
        return;
      }
      var previous := GetCircuitState(scope, now);
      circuits := circuits - {scope};
      EmitTransition(scope, previous, Closed);
    }
  }
}
