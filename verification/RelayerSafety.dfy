/**
 * What every reachable state of the relayer satisfies: one holder of the lock,
 * a bounded queue, bounded attempts (src/relayer/WebSocketRelayer.ts, 94-111,
 * 399-435, 477-482, 539-565).
 */
module RelayerSafety {
  import opened Common
  import opened Relayer

  // ------------------------------------------------------------------
  // The invariant
  // ------------------------------------------------------------------

  /** One holder at most; the lock is taken exactly when there is one, until destroy() forgets it. */
  ghost predicate LockOk(s: State) {
    && |s.holders| <= 1
    && (s.isDestroyed ==> !s.isLocked && s.lockQueue == [] && s.offlineQueue == [])
    && (!s.isDestroyed ==> (s.isLocked <==> |s.holders| == 1) && (s.lockQueue != [] ==> s.isLocked))
  }

  ghost predicate BoundsOk(c: Config, s: State) {
    && |s.offlineQueue| <= Max(1, c.maxPendingMessages)
    && s.reconnectAttempts <= c.maxReconnectAttempts
  }

  // ------------------------------------------------------------------
  // The lock and the bounds
  // ------------------------------------------------------------------

  ghost predicate Safe(c: Config, s: State) {
    LockOk(s) && BoundsOk(c, s)
  }

  lemma SendNowSafe(c: Config, s: State, msg: Message, now: int)
    requires Safe(c, s)
    ensures Safe(c, SendNow(c, s, msg, now))
    ensures SendNow(c, s, msg, now).isDestroyed == s.isDestroyed
  {
  }

  lemma {:induction false} FlushSafe(c: Config, s: State, pending: seq<Queued>, now: int)
    requires Safe(c, s)
    ensures Safe(c, FlushAll(c, s, pending, now))
    decreases |pending|
  {
    if pending != [] {
      SendNowSafe(c, s, pending[0].msg, now);
      FlushSafe(c, FlushOne(c, s, pending[0], now), pending[1..], now);
    }
  }

  lemma ReleaseSafe(c: Config, s: State, h: nat)
    requires Safe(c, s) && h < |s.holders|
    ensures Safe(c, ReleaseLock(s, h))
  {
  }

  lemma EstablishSafe(c: Config, s: State, h: nat, opening: Opening)
    requires Safe(c, s) && h < |s.holders|
    ensures Safe(c, Establish(s, h, opening))
  {
    ReleaseSafe(c, s, h);
  }

  lemma ConcludeSafe(c: Config, s: State, msg: Message, sendOk: bool, now: int)
    requires Safe(c, s)
    ensures Safe(c, Conclude(c, s, msg, sendOk, now)) && Conclude(c, s, msg, sendOk, now).holders == s.holders
  {
  }

  lemma ResumeReconnectSafe(c: Config, s: State, h: nat, opening: Opening)
    requires Safe(c, s) && h < |s.holders|
    ensures Safe(c, ResumeReconnect(c, s, h, opening))
  {
    ReleaseSafe(c, s, h);
    ReleaseSafe(c, GiveUpIfDown(c, s), h);
    EstablishSafe(c, s, h, opening);
  }

  lemma ResumeSafe(c: Config, s: State, h: nat, opening: Opening, sendOk: bool, now: int)
    requires Safe(c, s) && h < |s.holders|
    ensures Safe(c, StepResume(c, s, h, opening, sendOk, now))
  {
    match s.holders[h].task
    case SendTask(msg) =>
      ConcludeSafe(c, s, msg, sendOk, now);
      ReleaseSafe(c, Conclude(c, s, msg, sendOk, now), h);
    case ConnectTask =>
      ReleaseSafe(c, s, h);
      EstablishSafe(c, s, h, opening);
    case ReconnectTask => ResumeReconnectSafe(c, s, h, opening);
  }

  lemma OpenedSafe(c: Config, s: State, now: int)
    requires Safe(c, s)
    ensures Safe(c, StepOpened(c, s, now))
  {
    FlushSafe(c, s.(reconnectAttempts := 0, reconnectExhausted := false, offlineQueue := []), s.offlineQueue, now);
  }

  lemma CallSafe(c: Config, s: State, msg: Message, now: int)
    requires Safe(c, s)
    ensures Safe(c, StepSend(c, s, msg, now)) && Safe(c, StepConnect(s)) && Safe(c, StepDisconnect(s))
  {
    SendNowSafe(c, s.(ledger := s.ledger.(passed := s.ledger.passed + multiset{msg})), msg, now);
  }

  lemma EventSafe(c: Config, s: State)
    requires Safe(c, s)
    ensures Safe(c, StepDestroy(c, s)) && Safe(c, StepLinkLost(c, s))
  {
  }

  lemma StepSafe(c: Config, s: State, op: Op)
    requires Safe(c, s) && Enabled(s, op)
    ensures Safe(c, Step(c, s, op))
  {
    match op
    case Send(msg, now) => CallSafe(c, s, msg, now);
    case Connect =>
    case Disconnect =>
    case Opened(now) => OpenedSafe(c, s, now);
    case Resume(h, opening, sendOk, now) => ResumeSafe(c, s, h, opening, sendOk, now);
    case Destroy => EventSafe(c, s);
    case LinkLost => EventSafe(c, s);
    case _ =>
  }

  // ------------------------------------------------------------------
  // Runs
  // ------------------------------------------------------------------

  /**
   * In every reachable state, destroy() included, at most one task holds the
   * lock, the queue keeps to its bound and the attempts to their maximum.
   */
  lemma {:induction false} RunSafe(c: Config, ops: seq<Op>)
    ensures Safe(c, Run(c, ops))
  {
    if ops != [] {
      var before := Run(c, ops[..|ops| - 1]);
      RunSafe(c, ops[..|ops| - 1]);
      if Enabled(before, ops[|ops| - 1]) {
        StepSafe(c, before, ops[|ops| - 1]);
      }
    }
  }

  /** Still destroyed, no new holder of the lock, nothing more transmitted. */
  ghost predicate Quieter(s: State, r: State) {
    r.isDestroyed && |r.holders| <= |s.holders| && r.ledger.transmitted == s.ledger.transmitted
  }

  lemma DestroyedHolderIsQuiet(c: Config, s: State, h: nat, opening: Opening, sendOk: bool, now: int)
    requires Safe(c, s) && s.isDestroyed && h < |s.holders|
    ensures Quieter(s, StepResume(c, s, h, opening, sendOk, now))
  {
  }

  /** After destroy() nobody takes the lock and nothing is transmitted, queued or left waiting any more. */
  lemma DestroyedIsQuiet(c: Config, s: State, op: Op)
    requires Safe(c, s) && s.isDestroyed && Enabled(s, op)
    ensures Quieter(s, Step(c, s, op))
    ensures Step(c, s, op).offlineQueue == [] && Step(c, s, op).lockQueue == []
  {
    StepSafe(c, s, op);
    match op
    case Resume(h, opening, sendOk, now) => DestroyedHolderIsQuiet(c, s, h, opening, sendOk, now);
    case _ =>
  }

  lemma {:induction false} DestroyedNext(c: Config, ops: seq<Op>, op: Op)
    requires Run(c, ops).isDestroyed
    ensures var r := Run(c, ops + [op]); Quieter(Run(c, ops), r) && r.offlineQueue == [] && r.lockQueue == []
  {
    assert (ops + [op])[..|ops|] == ops;
    RunSafe(c, ops);
    if Enabled(Run(c, ops), op) {
      DestroyedIsQuiet(c, Run(c, ops), op);
    }
  }

  lemma {:induction false} DestroyNow(c: Config, before: seq<Op>)
    ensures Run(c, before + [Destroy]) == StepDestroy(c, Run(c, before))
  {
    assert (before + [Destroy])[..|before|] == before;
  }

  /** So whatever follows destroy() in a run transmits nothing, queues nothing and lets nobody new take the lock. */
  lemma {:induction false} DestroyedRunIsQuiet(c: Config, before: seq<Op>, after: seq<Op>)
    ensures var r := Run(c, before + [Destroy] + after);
            Quieter(Run(c, before + [Destroy]), r) && r.offlineQueue == [] && r.lockQueue == []
    ensures Run(c, before + [Destroy] + after).ledger.transmitted == Run(c, before).ledger.transmitted
  {
    DestroyNow(c, before);
    if after == [] {
      assert before + [Destroy] + after == before + [Destroy];
    } else {
      var n := |after| - 1;
      assert before + [Destroy] + after == before + [Destroy] + after[..n] + [after[n]];
      DestroyedRunIsQuiet(c, before, after[..n]);
      DestroyedNext(c, before + [Destroy] + after[..n], after[n]);
    }
  }

  /** A connect() that has the lock but has not looked at the socket yet. */
  const CONNECTING := [Holder(ConnectTask, Handed)]

  lemma NoSocketForReconnect(c: Config, s: State, h: nat, opening: Opening)
    requires Safe(c, s) && s.isDestroyed && h < |s.holders| && s.holders[h].task.ReconnectTask?
    ensures ResumeReconnect(c, s, h, opening).link == s.link
    ensures ResumeReconnect(c, s, h, opening).holders != CONNECTING
  {
  }

  lemma NoSocketStays(c: Config, s: State, op: Op)
    requires Safe(c, s) && s.isDestroyed && Enabled(s, op) && s.link.NoSocket? && s.holders != CONNECTING
    ensures Step(c, s, op).link.NoSocket? && Step(c, s, op).holders != CONNECTING
  {
    if op.Resume? && s.holders[op.h].task.ReconnectTask? {
      NoSocketForReconnect(c, s, op.h, op.opening);
    }
  }

  lemma {:induction false} NoSocketNext(c: Config, ops: seq<Op>, op: Op)
    requires Run(c, ops).isDestroyed && Run(c, ops).link.NoSocket? && Run(c, ops).holders != CONNECTING
    ensures Run(c, ops + [op]).link.NoSocket? && Run(c, ops + [op]).holders != CONNECTING
  {
    assert (ops + [op])[..|ops|] == ops;
    RunSafe(c, ops);
    if Enabled(Run(c, ops), op) {
      NoSocketStays(c, Run(c, ops), op);
    }
  }

  lemma {:induction false} NoSocketInRun(c: Config, before: seq<Op>, after: seq<Op>)
    requires Run(c, before).holders != CONNECTING
    ensures var r := Run(c, before + [Destroy] + after); r.link.NoSocket? && r.holders != CONNECTING
  {
    DestroyNow(c, before);
    if after == [] {
      assert before + [Destroy] + after == before + [Destroy];
    } else {
      var n := |after| - 1;
      assert before + [Destroy] + after == before + [Destroy] + after[..n] + [after[n]];
      NoSocketInRun(c, before, after[..n]);
      DestroyedRunIsQuiet(c, before, after[..n]);
      NoSocketNext(c, before + [Destroy] + after[..n], after[n]);
    }
  }

  /** A destroyed relayer can come to have a socket exactly when destroy() overtakes a connect() that has the lock. */
  lemma {:induction false} SocketAfterDestroyExactly(c: Config, before: seq<Op>)
    ensures (exists after :: Run(c, before + [Destroy] + after).link.Socket?) <==> Run(c, before).holders == CONNECTING
  {
    if Run(c, before).holders == CONNECTING {
      var ops := before + [Destroy] + [Resume(0, Created, false, 0)];
      assert ops[..|ops| - 1] == before + [Destroy];
      DestroyNow(c, before);
      assert Run(c, ops).link.Socket?;
    } else {
      forall after: seq<Op>
        ensures Run(c, before + [Destroy] + after).link.NoSocket?
      {
        NoSocketInRun(c, before, after);
      }
    }
  }

  /** It does: connect(), destroy() before the call has gone on, and then the call opens a socket. */
  lemma {:induction false} DestroyOvertakesConnect(c: Config)
    ensures Run(c, [Connect]).holders == CONNECTING
    ensures var s := Run(c, [Connect, Destroy, Resume(0, Created, false, 0)]); s.isDestroyed && s.link == Socket(false)
  {
    var ops := [Connect, Destroy, Resume(0, Created, false, 0)];
    assert [Connect][..0] == [] && Run(c, []) == Initial();
    DestroyNow(c, [Connect]);
    assert [Connect] + [Destroy] == [Connect, Destroy] == ops[..2];
  }

  /** While some call waits for the lock, somebody holds it and can go on: no hand-off is lost. */
  lemma {:induction false} WaitersAreServed(c: Config, ops: seq<Op>)
    ensures Run(c, ops).lockQueue != [] ==> |Run(c, ops).holders| == 1
  {
    RunSafe(c, ops);
  }
}
