/**
 * Accrual of a stream from a snapshot, and offline withdrawals from it
 * (src/utils.ts, 121-206; src/streams.ts, 333-364 and 496-513).
 */
module StreamAccrual {
  import opened Common

  /** The snapshot fields the arithmetic reads. endTime 0 means open-ended. */
  datatype StreamInfo = StreamInfo(
    ratePerSecond: int, startTime: int, endTime: int, withdrawn: nat, paused: bool, pausedAt: int, cancelled: bool)

  // ------------------------------------------------------------------
  // The code's functions
  // ------------------------------------------------------------------

  /** Clamp to the end first, then freeze at the pause while still running. */
  function EffectiveNow(s: StreamInfo, now: int): int {
    var endClamped := if s.endTime > 0 && now > s.endTime then s.endTime else now;
    if s.paused && s.pausedAt < endClamped then s.pausedAt else endClamped
  }

  function WithdrawableLocal(s: StreamInfo, now: int): nat {
    if s.cancelled then 0
    else
      var effectiveNow := EffectiveNow(s, now);
      if effectiveNow < s.startTime then 0
      else
        var elapsed := effectiveNow - s.startTime;
        if elapsed <= 0 then 0
        else
          var available := s.ratePerSecond * elapsed - s.withdrawn;
          if available > 0 then available else 0
  }

  function StreamedTotalLocal(s: StreamInfo, now: int): int {
    if s.cancelled then s.withdrawn
    else
      var effectiveNow := EffectiveNow(s, now);
      if effectiveNow < s.startTime then 0
      else
        var elapsed := effectiveNow - s.startTime;
        if elapsed <= 0 then 0 else s.ratePerSecond * elapsed
  }

  /** The second implementation, in the streams module. */
  function CalculateWithdrawableAmount(s: StreamInfo, now: int): nat {
    if s.cancelled then 0
    else
      var endClamped := if s.endTime > 0 && now > s.endTime then s.endTime else now;
      var effectiveNow := if s.paused && s.pausedAt < endClamped then s.pausedAt else endClamped;
      if effectiveNow < s.startTime then 0
      else
        var elapsed := effectiveNow - s.startTime;
        if elapsed <= 0 then 0
        else
          var available := s.ratePerSecond * elapsed - s.withdrawn;
          if available > 0 then available else 0
  }

  datatype Progress = NaN | Fraction(value: real)

  function StreamProgress(s: StreamInfo, now: int): Progress {
    if now < s.startTime then Fraction(0.0)
    else if s.endTime == 0 then NaN
    else if now >= s.endTime then Fraction(1.0)
    else Fraction((now - s.startTime) as real / (s.endTime - s.startTime) as real)
  }

  function NormalizeProgress(p: Progress): real {
    if p.NaN? then 0.5 else p.value
  }

  datatype SimulatedWithdraw = SimulatedWithdraw(
    withdrawAmount: int, withdrawable: nat, remainingWithdrawable: int, exceedsAvailable: bool)

  function SimulateWithdraw(s: StreamInfo, amount: Option<int>, now: int): SimulatedWithdraw {
    var withdrawable := CalculateWithdrawableAmount(s, now);
    var requested := if amount.Some? then amount.value else withdrawable;
    var exceedsAvailable := requested > withdrawable;
    var withdrawAmount := if exceedsAvailable then withdrawable else requested;
    SimulatedWithdraw(withdrawAmount, withdrawable, withdrawable - withdrawAmount, exceedsAvailable)
  }

  // ------------------------------------------------------------------
  // Runs of withdrawals
  // ------------------------------------------------------------------

  /** A request for an amount, or for everything available. */
  datatype Request = Request(amount: Option<nat>, at: int)

  function Apply(s: StreamInfo, r: Request): (s': StreamInfo) {
    var paid := SimulateWithdraw(s, if r.amount.Some? then Some(r.amount.value) else None, r.at).withdrawAmount;
    s.(withdrawn := s.withdrawn + paid)
  }

  function Run(s: StreamInfo, reqs: seq<Request>): StreamInfo {
    if reqs == [] then s else Apply(Run(s, reqs[..|reqs| - 1]), reqs[|reqs| - 1])
  }

  ghost predicate Ordered(reqs: seq<Request>) {
    forall i, j :: 0 <= i <= j < |reqs| ==> reqs[i].at <= reqs[j].at
  }

  /** Running: not cancelled, non-negative rate. */
  ghost predicate Accruing(s: StreamInfo) {
    !s.cancelled && s.ratePerSecond >= 0
  }

  /** The amount streamed does not depend on what was withdrawn. */
  lemma {:induction false} RunKeepsTerms(s: StreamInfo, reqs: seq<Request>)
    ensures Run(s, reqs) == s.(withdrawn := Run(s, reqs).withdrawn)
  {
    if reqs != [] {
      RunKeepsTerms(s, reqs[..|reqs| - 1]);
    }
  }

  lemma MulMonotone(rate: int, a: int, b: int)
    requires rate >= 0 && a <= b
    ensures rate * a <= rate * b
  {
  }

  /** Streaming never runs backwards, through pauses and past the end. */
  lemma StreamedMonotone(s: StreamInfo, now: int, later: int)
    requires Accruing(s) && now <= later
    ensures 0 <= StreamedTotalLocal(s, now) <= StreamedTotalLocal(s, later)
  {
    var a, b := EffectiveNow(s, now) - s.startTime, EffectiveNow(s, later) - s.startTime;
    assert a <= b;
    MulMonotone(s.ratePerSecond, a, b);
    if a >= 0 {
      MulMonotone(s.ratePerSecond, 0, a);
    } else if b >= 0 {
      MulMonotone(s.ratePerSecond, 0, b);
    }
  }

  // ------------------------------------------------------------------
  // What the amounts count
  // ------------------------------------------------------------------

  /** The stream runs in second t: not ended, not paused yet. */
  predicate RunsIn(s: StreamInfo, t: int) {
    (s.endTime > 0 ==> t < s.endTime) && (s.paused ==> t < s.pausedAt)
  }

  /** The seconds from the start up to `now` in which it runs. */
  function RunningSeconds(s: StreamInfo, now: int): nat
    decreases now - s.startTime
  {
    if now <= s.startTime then 0 else RunningSeconds(s, now - 1) + (if RunsIn(s, now - 1) then 1 else 0)
  }

  lemma {:induction false} SecondsAreElapsed(s: StreamInfo, now: int)
    ensures RunningSeconds(s, now) == Max(0, EffectiveNow(s, now) - s.startTime)
    decreases now - s.startTime
  {
    if now > s.startTime {
      SecondsAreElapsed(s, now - 1);
    }
  }

  /** What has streamed is the rate for every second the stream ran; a cancelled one reports what was paid out. */
  lemma {:induction false} StreamedExactly(s: StreamInfo, now: int)
    ensures StreamedTotalLocal(s, now) ==
            if s.cancelled then s.withdrawn else s.ratePerSecond * RunningSeconds(s, now)
  {
    SecondsAreElapsed(s, now);
  }

  /** What can be withdrawn is that less what was withdrawn, if positive; nothing from a cancelled stream. */
  lemma {:induction false} WithdrawableExactly(s: StreamInfo, now: int)
    ensures WithdrawableLocal(s, now) ==
            if s.cancelled then 0 else Max(0, s.ratePerSecond * RunningSeconds(s, now) - s.withdrawn)
    ensures CalculateWithdrawableAmount(s, now) == WithdrawableLocal(s, now)
  {
    SecondsAreElapsed(s, now);
  }

  /** From the pause on, and from the end on, nothing accrues. */
  lemma {:induction false} StopsAccruing(s: StreamInfo, now: int, later: int)
    requires now <= later && ((s.paused && s.pausedAt <= now) || (s.endTime > 0 && s.endTime <= now))
    ensures RunningSeconds(s, later) == RunningSeconds(s, now)
    ensures StreamedTotalLocal(s, later) == StreamedTotalLocal(s, now)
    ensures WithdrawableLocal(s, later) == WithdrawableLocal(s, now)
  {
    SecondsAreElapsed(s, now);
    SecondsAreElapsed(s, later);
  }

  /** The fraction of a bounded stream's time that has passed; none for an open-ended one that has started. */
  lemma ProgressExactly(s: StreamInfo, now: int)
    ensures StreamProgress(s, now).NaN? <==> s.endTime == 0 && now >= s.startTime
    ensures s.startTime < s.endTime && s.endTime != 0 ==>
              && StreamProgress(s, now).Fraction?
              && StreamProgress(s, now).value * (s.endTime - s.startTime) as real ==
                 (Max(s.startTime, Min(s.endTime, now)) - s.startTime) as real
    ensures NormalizeProgress(NaN) == 0.5
    ensures StreamProgress(s, now).Fraction? ==>
              NormalizeProgress(StreamProgress(s, now)) == StreamProgress(s, now).value
  {
  }

  /** A simulated withdrawal pays what is asked for, all that is there by default, and never more. */
  lemma SimulatedExactly(s: StreamInfo, amount: Option<int>, now: int)
    ensures var r, w := SimulateWithdraw(s, amount, now), CalculateWithdrawableAmount(s, now);
            && r.withdrawable == w
            && r.withdrawAmount == (if amount.None? then w else Min(amount.value, w))
            && r.withdrawAmount + r.remainingWithdrawable == w
            && (r.exceedsAvailable <==> amount.Some? && amount.value > w)
  {
  }

  /** The two implementations agree on every snapshot at every time. */
  lemma ImplementationsAgree(s: StreamInfo, now: int)
    ensures WithdrawableLocal(s, now) == CalculateWithdrawableAmount(s, now)
  {
  }

  /** Withdrawn plus withdrawable is the streamed total exactly when no more than that was withdrawn. */
  lemma Conservation(s: StreamInfo, now: int)
    requires Accruing(s)
    ensures s.withdrawn + WithdrawableLocal(s, now) == Max(s.withdrawn, StreamedTotalLocal(s, now))
    ensures s.withdrawn + WithdrawableLocal(s, now) == StreamedTotalLocal(s, now) <==>
            s.withdrawn <= StreamedTotalLocal(s, now)
  {
    StreamedMonotone(s, now, now);
  }

  /** One request pays what is asked, up to the streamed total. */
  lemma ApplyPays(s: StreamInfo, r: Request)
    requires Accruing(s) && s.withdrawn <= StreamedTotalLocal(s, r.at)
    ensures Apply(s, r).withdrawn ==
            if r.amount.None? then StreamedTotalLocal(s, r.at)
            else Min(s.withdrawn + r.amount.value, StreamedTotalLocal(s, r.at))
  {
    Conservation(s, r.at);
    ImplementationsAgree(s, r.at);
  }

  /**
   * Over any run of requests at non-decreasing times: never more is withdrawn
   * than streamed, and what is withdrawn plus what is left is what streamed.
   */
  lemma {:induction false} RunSafe(s: StreamInfo, reqs: seq<Request>, now: int)
    requires Accruing(s) && Ordered(reqs)
    requires reqs != [] ==> s.withdrawn <= StreamedTotalLocal(s, reqs[0].at) && reqs[|reqs| - 1].at <= now
    requires reqs == [] ==> s.withdrawn <= StreamedTotalLocal(s, now)
    ensures Run(s, reqs).withdrawn <= StreamedTotalLocal(s, now)
    ensures StreamedTotalLocal(Run(s, reqs), now) == StreamedTotalLocal(s, now)
    ensures Run(s, reqs).withdrawn + WithdrawableLocal(Run(s, reqs), now) == StreamedTotalLocal(s, now)
    ensures s.withdrawn <= Run(s, reqs).withdrawn
    decreases |reqs|
  {
    RunKeepsTerms(s, reqs);
    if reqs != [] {
      var before, r := reqs[..|reqs| - 1], reqs[|reqs| - 1];
      RunSafe(s, before, r.at);
      ApplyPays(Run(s, before), r);
      StreamedMonotone(s, r.at, now);
    }
    Conservation(Run(s, reqs), now);
  }

  // ------------------------------------------------------------------
  // How much a run withdraws, from the requests alone
  // ------------------------------------------------------------------

  /** Total asked for from request `from` on; None once somebody asks for everything. */
  function AskedFrom(reqs: seq<Request>, from: nat): Option<nat>
    requires from <= |reqs|
    decreases |reqs| - from
  {
    if from == |reqs| then Some(0)
    else
      var rest := AskedFrom(reqs, from + 1);
      if rest.None? || reqs[from].amount.None? then None else Some(reqs[from].amount.value + rest.value)
  }

  /** The ceiling request j puts on the final total: the amount streamed at j plus everything asked for later. */
  function Ceiling(s: StreamInfo, reqs: seq<Request>, j: nat): Option<int>
    requires j < |reqs|
  {
    var asked := AskedFrom(reqs, j + 1);
    if asked.None? then None else Some(StreamedTotalLocal(s, reqs[j].at) + asked.value)
  }

  ghost predicate IsCeiling(s: StreamInfo, reqs: seq<Request>, c: int) {
    || AskedFrom(reqs, 0) == Some(c - s.withdrawn)
    || exists j :: 0 <= j < |reqs| && Ceiling(s, reqs, j) == Some(c)
  }

  lemma {:induction false} AskedAppend(reqs: seq<Request>, r: Request, from: nat)
    requires from <= |reqs|
    ensures AskedFrom(reqs + [r], from) ==
            if AskedFrom(reqs, from).None? || r.amount.None? then None
            else Some(AskedFrom(reqs, from).value + r.amount.value)
    decreases |reqs| - from
  {
    if from < |reqs| {
      AskedAppend(reqs, r, from + 1);
    } else {
      assert AskedFrom(reqs + [r], from + 1) == Some(0);
    }
  }

  ghost predicate IsLeastCeiling(s: StreamInfo, reqs: seq<Request>, w: int) {
    IsCeiling(s, reqs, w) && forall c :: IsCeiling(s, reqs, c) ==> w <= c
  }

  lemma LeastCeilingAppend(s: StreamInfo, before: seq<Request>, r: Request, w: int, total: int)
    requires IsLeastCeiling(s, before, w) && w <= total == StreamedTotalLocal(s, r.at)
    ensures IsLeastCeiling(s, before + [r], if r.amount.None? then total else Min(w + r.amount.value, total))
  {
    CeilingsAppend(s, before, r);
    if r.amount.Some? {
      assert IsCeiling(s, before, w + r.amount.value - r.amount.value);
    }
  }

  lemma {:induction false} LastPays(s: StreamInfo, before: seq<Request>, r: Request)
    requires Accruing(s) && Ordered(before + [r])
    requires s.withdrawn <= StreamedTotalLocal(s, (before + [r])[0].at)
    ensures Run(s, before).withdrawn <= StreamedTotalLocal(s, r.at)
    ensures Run(s, before + [r]).withdrawn ==
            if r.amount.None? then StreamedTotalLocal(s, r.at)
            else Min(Run(s, before).withdrawn + r.amount.value, StreamedTotalLocal(s, r.at))
  {
    var reqs := before + [r];
    assert reqs[..|reqs| - 1] == before;
    assert reqs[|before|] == r;
    assert forall i :: 0 <= i < |before| ==> reqs[i] == before[i];
    assert Ordered(before) && (before != [] ==> before[|before| - 1].at <= r.at);
    RunSafe(s, before, r.at);
    RunKeepsTerms(s, before);
    ApplyPays(Run(s, before), r);
  }

  lemma {:induction false} LeastCeilingStep(s: StreamInfo, before: seq<Request>, r: Request)
    requires Accruing(s) && Ordered(before + [r])
    requires s.withdrawn <= StreamedTotalLocal(s, (before + [r])[0].at)
    requires IsLeastCeiling(s, before, Run(s, before).withdrawn)
    ensures IsLeastCeiling(s, before + [r], Run(s, before + [r]).withdrawn)
  {
    LastPays(s, before, r);
    LeastCeilingAppend(s, before, r, Run(s, before).withdrawn, StreamedTotalLocal(s, r.at));
  }

  lemma {:induction false} NoRequests(s: StreamInfo)
    ensures IsLeastCeiling(s, [], Run(s, []).withdrawn)
  {
  }

  /** The final total is the least of the ceilings: it respects them all and attains one. */
  lemma {:induction false} LeastCeiling(s: StreamInfo, reqs: seq<Request>)
    requires Accruing(s) && Ordered(reqs)
    requires reqs != [] ==> s.withdrawn <= StreamedTotalLocal(s, reqs[0].at)
    ensures IsLeastCeiling(s, reqs, Run(s, reqs).withdrawn)
    decreases |reqs|
  {
    if reqs == [] {
      NoRequests(s);
    } else {
      var before, r := reqs[..|reqs| - 1], reqs[|reqs| - 1];
      assert reqs == before + [r];
      LeastCeiling(s, before);
      LeastCeilingStep(s, before, r);
    }
  }

  /** Appending a request lifts every earlier ceiling by what it asks for and adds its own. */
  lemma CeilingsAppend(s: StreamInfo, before: seq<Request>, r: Request)
    ensures forall c :: IsCeiling(s, before + [r], c) <==>
              || c == StreamedTotalLocal(s, r.at)
              || (r.amount.Some? && IsCeiling(s, before, c - r.amount.value))
  {
    var reqs := before + [r];
    AskedAppend(before, r, 0);
    forall j | 0 <= j < |before|
      ensures Ceiling(s, reqs, j) ==
              if Ceiling(s, before, j).None? || r.amount.None? then None
              else Some(Ceiling(s, before, j).value + r.amount.value)
    {
      AskedAppend(before, r, j + 1);
    }
    assert Ceiling(s, reqs, |before|) == Some(StreamedTotalLocal(s, r.at));
    forall c | r.amount.Some? && IsCeiling(s, before, c - r.amount.value)
      ensures IsCeiling(s, reqs, c)
    {
      if AskedFrom(before, 0) != Some(c - r.amount.value - s.withdrawn) {
        var j :| 0 <= j < |before| && Ceiling(s, before, j) == Some(c - r.amount.value);
        assert Ceiling(s, reqs, j) == Some(c);
      }
    }
  }

  lemma {:induction false} RunConcat(s: StreamInfo, a: seq<Request>, b: seq<Request>)
    ensures Run(s, a + b) == Run(Run(s, a), b)
    decreases |b|
  {
    if b == [] {
      assert a + b == a;
    } else {
      RunConcat(s, a, b[..|b| - 1]);
      assert (a + b)[..|a + b| - 1] == a + b[..|b| - 1];
    }
  }

  /** Splitting one request into two at the same instant changes nothing, now or later. */
  lemma {:induction false} SplitIndependent(
    s: StreamInfo, before: seq<Request>, x: nat, y: nat, at: int, after: seq<Request>)
    requires Accruing(s) && Ordered(before)
    requires if before == [] then s.withdrawn <= StreamedTotalLocal(s, at)
             else s.withdrawn <= StreamedTotalLocal(s, before[0].at) && before[|before| - 1].at <= at
    ensures Run(s, before + [Request(Some(x + y), at)] + after)
         == Run(s, before + [Request(Some(x), at), Request(Some(y), at)] + after)
  {
    var one, two := [Request(Some(x + y), at)], [Request(Some(x), at), Request(Some(y), at)];
    RunConcat(s, before + one, after);
    RunConcat(s, before + two, after);
    RunConcat(s, before, one);
    RunConcat(s, before, two);
    RunSafe(s, before, at);
    RunKeepsTerms(s, before);
    SplitOnce(Run(s, before), x, y, at);
  }

  lemma {:induction false} SplitOnce(s: StreamInfo, x: nat, y: nat, at: int)
    requires Accruing(s) && s.withdrawn <= StreamedTotalLocal(s, at)
    ensures Run(s, [Request(Some(x + y), at)]) == Run(s, [Request(Some(x), at), Request(Some(y), at)])
  {
    var a, b := Request(Some(x), at), Request(Some(y), at);
    RunOne(s, Request(Some(x + y), at));
    RunOne(s, a);
    assert [a, b][..1] == [a];
    SplitApply(s, x, y, at);
  }

  lemma SplitApply(s: StreamInfo, x: nat, y: nat, at: int)
    requires Accruing(s) && s.withdrawn <= StreamedTotalLocal(s, at)
    ensures Apply(s, Request(Some(x + y), at)) == Apply(Apply(s, Request(Some(x), at)), Request(Some(y), at))
  {
    ApplyPays(s, Request(Some(x + y), at));
    ApplyPays(s, Request(Some(x), at));
    ApplyPays(Apply(s, Request(Some(x), at)), Request(Some(y), at));
  }

  lemma {:induction false} RunOne(s: StreamInfo, r: Request)
    ensures Run(s, [r]) == Apply(s, r)
  {
    assert [r][..0] == [];
  }

  /** Asking for everything at the end makes the total independent of the whole history. */
  lemma {:induction false} DrainIsTotal(s: StreamInfo, reqs: seq<Request>, at: int)
    requires Accruing(s) && Ordered(reqs)
    requires if reqs == [] then s.withdrawn <= StreamedTotalLocal(s, at)
             else s.withdrawn <= StreamedTotalLocal(s, reqs[0].at) && reqs[|reqs| - 1].at <= at
    ensures Run(s, reqs + [Request(None, at)]).withdrawn == StreamedTotalLocal(s, at)
  {
    RunSafe(s, reqs, at);
    RunKeepsTerms(s, reqs);
    ApplyPays(Run(s, reqs), Request(None, at));
    assert (reqs + [Request(None, at)])[..|reqs|] == reqs;
  }
}
