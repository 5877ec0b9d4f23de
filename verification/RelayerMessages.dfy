/**
 * Where the relayer's messages are, and the order in which they go out
 * (src/relayer/WebSocketRelayer.ts, 367-377, 477-519).
 */
module RelayerMessages {
  import opened Common
  import opened Relayer
  import opened RelayerSafety

  // ------------------------------------------------------------------
  // Where the messages are
  // ------------------------------------------------------------------

  function One(msg: Message, m: Message): nat { if msg == m then 1 else 0 }

  function TaskOne(t: Task, m: Message): nat { if t.SendTask? then One(t.msg, m) else 0 }

  /** Copies of m among the first n entries. */
  function InQueue(q: seq<Queued>, n: nat, m: Message): nat
    requires n <= |q|
  {
    if n == 0 then 0 else InQueue(q, n - 1, m) + One(q[n - 1].msg, m)
  }

  function InTasks(q: seq<Task>, n: nat, m: Message): nat
    requires n <= |q|
  {
    if n == 0 then 0 else InTasks(q, n - 1, m) + TaskOne(q[n - 1], m)
  }

  function InHands(hs: seq<Holder>, n: nat, m: Message): nat
    requires n <= |hs|
  {
    if n == 0 then 0 else InHands(hs, n - 1, m) + TaskOne(hs[n - 1].task, m)
  }

  /** How many copies of a message have ended up somewhere for good. */
  function Gone(l: Ledger, m: Message): nat {
    l.transmitted[m] + l.evicted[m] + l.expired[m] + l.refused[m] + l.discarded[m]
  }

  /** Every place a copy can be: queued, waiting for the lock, holding it, or gone one of five ways. */
  function Located(s: State, m: Message): nat {
    InQueue(s.offlineQueue, |s.offlineQueue|, m) + InTasks(s.lockQueue, |s.lockQueue|, m)
    + InHands(s.holders, |s.holders|, m) + Gone(s.ledger, m)
  }

  // ------------------------------------------------------------------
  // Conservation of messages
  // ------------------------------------------------------------------

  lemma {:induction false} QueuePrefix(a: seq<Queued>, b: seq<Queued>, n: nat, m: Message)
    requires n <= |a| && n <= |b| && forall i :: 0 <= i < n ==> a[i] == b[i]
    ensures InQueue(a, n, m) == InQueue(b, n, m)
  {
    if n > 0 {
      QueuePrefix(a, b, n - 1, m);
    }
  }

  lemma QueueTail(q: seq<Queued>, n: nat, m: Message)
    requires 0 < n <= |q|
    ensures InQueue(q, n, m) == One(q[0].msg, m) + InQueue(q[1..], n - 1, m)
  {
    if n > 1 {
      QueueTail(q, n - 1, m);
    }
  }

  lemma {:induction false} TaskPrefix(a: seq<Task>, b: seq<Task>, n: nat, m: Message)
    requires n <= |a| && n <= |b| && forall i :: 0 <= i < n ==> a[i] == b[i]
    ensures InTasks(a, n, m) == InTasks(b, n, m)
  {
    if n > 0 {
      TaskPrefix(a, b, n - 1, m);
    }
  }

  lemma TaskTail(q: seq<Task>, n: nat, m: Message)
    requires 0 < n <= |q|
    ensures InTasks(q, n, m) == TaskOne(q[0], m) + InTasks(q[1..], n - 1, m)
  {
    if n > 1 {
      TaskTail(q, n - 1, m);
    }
  }

  lemma {:induction false} QueueMsgsCount(q: seq<Queued>, m: Message)
    ensures QueueMsgs(q)[m] == InQueue(q, |q|, m)
  {
    if q != [] {
      QueueMsgsCount(q[1..], m);
      QueueTail(q, |q|, m);
    }
  }

  lemma {:induction false} TaskMsgsCount(q: seq<Task>, m: Message)
    ensures TaskMsgs(q)[m] == InTasks(q, |q|, m)
  {
    if q != [] {
      TaskMsgsCount(q[1..], m);
      TaskTail(q, |q|, m);
    }
  }

  lemma {:induction false} OneHand(hs: seq<Holder>, m: Message)
    requires |hs| == 1
    ensures InHands(hs, |hs|, m) == TaskOne(hs[0].task, m)
  {
    assert InHands(hs, 0, m) == 0;
  }

  lemma {:induction false} InQueuePush(q: seq<Queued>, e: Queued, m: Message)
    ensures InQueue(q + [e], |q| + 1, m) == InQueue(q, |q|, m) + One(e.msg, m)
  {
    QueuePrefix(q, q + [e], |q|, m);
  }

  lemma {:induction false} InQueueShift(q: seq<Queued>, m: Message)
    requires q != []
    ensures InQueue(q, |q|, m) == One(q[0].msg, m) + InQueue(q[1..], |q[1..]|, m)
  {
    QueueTail(q, |q|, m);
  }

  lemma QueueLocated(c: Config, s: State, msg: Message, now: int, m: Message)
    ensures Located(QueueMessage(c, s, msg, now), m) == Located(s, m) + One(msg, m)
  {
    if |s.offlineQueue| >= c.maxPendingMessages && s.offlineQueue != [] {
      InQueueShift(s.offlineQueue, m);
      InQueuePush(s.offlineQueue[1..], Queued(msg, now), m);
    } else {
      InQueuePush(s.offlineQueue, Queued(msg, now), m);
    }
  }

  lemma AcquireLocated(s: State, task: Task, m: Message)
    requires LockOk(s) && !s.isDestroyed
    ensures Located(AcquireLock(s, task), m) == Located(s, m) + TaskOne(task, m)
  {
    if s.isLocked {
      TaskPrefix(s.lockQueue, s.lockQueue + [task], |s.lockQueue|, m);
    } else {
      OneHand(s.holders + [Holder(task, Handed)], m);
    }
  }

  lemma ReleaseLocated(s: State, h: nat, m: Message)
    requires |s.holders| <= 1 && h < |s.holders|
    ensures Located(ReleaseLock(s, h), m) + TaskOne(s.holders[h].task, m) == Located(s, m)
    ensures ReleaseLock(s, h).ledger == s.ledger
  {
    OneHand(s.holders, m);
    if s.lockQueue != [] {
      TaskTail(s.lockQueue, |s.lockQueue|, m);
      OneHand(ReleaseLock(s, h).holders, m);
    }
  }

  lemma SendNowLocated(c: Config, s: State, msg: Message, now: int, m: Message)
    requires LockOk(s)
    ensures Located(SendNow(c, s, msg, now), m) == Located(s, m) + One(msg, m)
    ensures SendNow(c, s, msg, now).ledger.passed == s.ledger.passed
  {
    if s.isDestroyed || s.reconnectExhausted {
    } else if !IsOpen(s.link) {
      QueueLocated(c, s, msg, now, m);
    } else {
      AcquireLocated(s, SendTask(msg), m);
    }
  }

  lemma FlushOneLocated(c: Config, s: State, q: Queued, now: int, m: Message)
    requires Safe(c, s)
    ensures Safe(c, FlushOne(c, s, q, now))
    ensures Located(FlushOne(c, s, q, now), m) == Located(s, m) + One(q.msg, m)
    ensures FlushOne(c, s, q, now).ledger.passed == s.ledger.passed
  {
    if !Stale(c, q, now) {
      SendNowSafe(c, s, q.msg, now);
      SendNowLocated(c, s, q.msg, now, m);
    }
  }

  lemma FlushUnfolds(c: Config, s: State, pending: seq<Queued>, now: int, m: Message)
    returns (rest: seq<Queued>)
    requires pending != []
    ensures |rest| < |pending|
    ensures FlushAll(c, s, pending, now) == FlushAll(c, FlushOne(c, s, pending[0], now), rest, now)
    ensures InQueue(pending, |pending|, m) == One(pending[0].msg, m) + InQueue(rest, |rest|, m)
  {
    QueueTail(pending, |pending|, m);
    rest := pending[1..];
  }

  lemma {:induction false} FlushLocated(c: Config, s: State, pending: seq<Queued>, now: int, m: Message)
    requires Safe(c, s)
    ensures Located(FlushAll(c, s, pending, now), m) == Located(s, m) + InQueue(pending, |pending|, m)
    ensures FlushAll(c, s, pending, now).ledger.passed == s.ledger.passed
    decreases |pending|
  {
    if pending != [] {
      var rest := FlushUnfolds(c, s, pending, now, m);
      FlushOneLocated(c, s, pending[0], now, m);
      FlushLocated(c, FlushOne(c, s, pending[0], now), rest, now, m);
    }
  }

  /** Moving to the next phase moves no message. */
  lemma {:induction false} PhaseLocated(s: State, h: nat, phase: Phase, m: Message)
    requires |s.holders| <= 1 && h < |s.holders|
    ensures InHands(s.holders[h := s.holders[h].(phase := phase)], |s.holders|, m) == InHands(s.holders, |s.holders|, m)
  {
    OneHand(s.holders, m);
    OneHand(s.holders[h := s.holders[h].(phase := phase)], m);
  }

  lemma EstablishLocated(s: State, h: nat, opening: Opening, m: Message)
    requires |s.holders| <= 1 && h < |s.holders| && !s.holders[h].task.SendTask?
    ensures Located(Establish(s, h, opening), m) == Located(s, m)
    ensures Establish(s, h, opening).ledger == s.ledger
  {
    PhaseLocated(s, h, Establishing, m);
    ReleaseLocated(s, h, m);
  }

  lemma ConcludeLocated(c: Config, s: State, msg: Message, sendOk: bool, now: int, m: Message)
    ensures Located(Conclude(c, s, msg, sendOk, now), m) == Located(s, m) + One(msg, m)
    ensures Conclude(c, s, msg, sendOk, now).ledger.passed == s.ledger.passed
    ensures Conclude(c, s, msg, sendOk, now).holders == s.holders
  {
    if !s.isDestroyed && !s.reconnectExhausted && !IsOpen(s.link) {
      QueueLocated(c, s, msg, now, m);
    }
  }

  lemma BackOffLocated(s: State, h: nat, m: Message)
    requires |s.holders| <= 1 && h < |s.holders|
    ensures Located(BackOff(s, h), m) == Located(s, m) && BackOff(s, h).ledger == s.ledger
  {
    PhaseLocated(s, h, Backoff, m);
  }

  lemma GiveUpLocated(c: Config, s: State, h: nat, m: Message)
    requires |s.holders| <= 1 && h < |s.holders| && s.holders[h].task.ReconnectTask?
    ensures Located(ReleaseLock(GiveUpIfDown(c, s), h), m) == Located(s, m)
  {
    ReleaseLocated(GiveUpIfDown(c, s), h, m);
  }

  lemma ResumeReconnectLocated(c: Config, s: State, h: nat, opening: Opening, m: Message)
    requires |s.holders| <= 1 && h < |s.holders| && s.holders[h].task.ReconnectTask?
    ensures Located(ResumeReconnect(c, s, h, opening), m) == Located(s, m)
    ensures ResumeReconnect(c, s, h, opening).ledger == s.ledger
  {
    match s.holders[h].phase
    case Handed =>
      if ShouldAttemptReconnect(c, s) {
        BackOffLocated(s, h, m);
      } else {
        GiveUpLocated(c, s, h, m);
      }
    case Backoff =>
      if s.isDestroyed || !s.reconnectEnabled {
        ReleaseLocated(s, h, m);
      } else {
        EstablishLocated(s, h, opening, m);
      }
    case Establishing => ReleaseLocated(s, h, m);
  }

  lemma ResumeSendLocated(c: Config, s: State, h: nat, sendOk: bool, now: int, m: Message)
    requires |s.holders| <= 1 && h < |s.holders| && s.holders[h].task.SendTask?
    ensures var r := ReleaseLock(Conclude(c, s, s.holders[h].task.msg, sendOk, now), h);
            Located(r, m) == Located(s, m) && r.ledger.passed == s.ledger.passed
  {
    var done := Conclude(c, s, s.holders[h].task.msg, sendOk, now);
    ConcludeLocated(c, s, s.holders[h].task.msg, sendOk, now, m);
    ReleaseLocated(done, h, m);
  }

  lemma ResumeLocated(
    c: Config, s: State, h: nat, opening: Opening, sendOk: bool, now: int, m: Message)
    requires |s.holders| <= 1 && h < |s.holders|
    ensures Located(StepResume(c, s, h, opening, sendOk, now), m) == Located(s, m)
    ensures StepResume(c, s, h, opening, sendOk, now).ledger.passed == s.ledger.passed
  {
    match s.holders[h].task
    case SendTask(msg) => ResumeSendLocated(c, s, h, sendOk, now, m);
    case ConnectTask =>
      if s.holders[h].phase.Handed? && !IsOpen(s.link) {
        EstablishLocated(s, h, opening, m);
      } else {
        ReleaseLocated(s, h, m);
      }
    case ReconnectTask => ResumeReconnectLocated(c, s, h, opening, m);
  }

  lemma OpenedLocated(c: Config, s: State, now: int, m: Message)
    requires Safe(c, s)
    ensures Located(StepOpened(c, s, now), m) == Located(s, m)
    ensures StepOpened(c, s, now).ledger.passed == s.ledger.passed
  {
    var up := s.(reconnectAttempts := 0, reconnectExhausted := false, offlineQueue := []);
    FlushLocated(c, up, s.offlineQueue, now, m);
  }

  lemma LinkLostLocated(c: Config, s: State, m: Message)
    requires LockOk(s)
    ensures Located(StepLinkLost(c, s), m) == Located(s, m)
    ensures StepLinkLost(c, s).ledger == s.ledger
  {
    var lost := s.(link := NoSocket);
    if ShouldAttemptReconnect(c, lost) {
      AcquireLocated(lost, ReconnectTask, m);
    }
  }

  lemma ConnectLocated(s: State, m: Message)
    requires LockOk(s)
    ensures Located(StepConnect(s), m) == Located(s, m)
    ensures StepConnect(s).ledger == s.ledger
  {
    if !s.isDestroyed && !s.connecting {
      AcquireLocated(
        s.(reconnectEnabled := true, reconnectExhausted := false, reconnectAttempts := 0, connecting := true),
        ConnectTask, m);
    }
  }

  lemma SendLocated(c: Config, s: State, msg: Message, now: int, m: Message)
    requires LockOk(s)
    ensures Located(StepSend(c, s, msg, now), m) == Located(s, m) + One(msg, m)
    ensures StepSend(c, s, msg, now).ledger.passed[m] == s.ledger.passed[m] + One(msg, m)
  {
    var t := s.(ledger := s.ledger.(passed := s.ledger.passed + multiset{msg}));
    assert Located(t, m) == Located(s, m);
    SendNowLocated(c, t, msg, now, m);
  }

  lemma DestroyLocated(c: Config, s: State, m: Message)
    ensures Located(StepDestroy(c, s), m) == Located(s, m)
    ensures StepDestroy(c, s).ledger.passed == s.ledger.passed
  {
    QueueMsgsCount(s.offlineQueue, m);
    TaskMsgsCount(s.lockQueue, m);
  }

  /** No step makes or loses a message: what is located grows exactly with what is passed to send(). */
  lemma StepConserves(c: Config, s: State, op: Op, m: Message)
    requires Safe(c, s) && Enabled(s, op)
    ensures Located(Step(c, s, op), m) == Located(s, m) + (if op.Send? then One(op.msg, m) else 0)
    ensures Step(c, s, op).ledger.passed[m] == s.ledger.passed[m] + (if op.Send? then One(op.msg, m) else 0)
  {
    match op
    case Send(msg, now) => SendLocated(c, s, msg, now, m);
    case Connect => ConnectLocated(s, m);
    case Opened(now) => OpenedLocated(c, s, now, m);
    case LinkLost => LinkLostLocated(c, s, m);
    case Resume(h, opening, sendOk, now) => ResumeLocated(c, s, h, opening, sendOk, now, m);
    case Destroy => DestroyLocated(c, s, m);
    case _ =>
  }

  // ------------------------------------------------------------------
  // Runs
  // ------------------------------------------------------------------

  /** Every copy of a message passed to send() is in exactly one place. */
  lemma {:induction false} RunConserves(c: Config, ops: seq<Op>, m: Message)
    ensures Located(Run(c, ops), m) == Run(c, ops).ledger.passed[m]
  {
    if ops != [] {
      var before := Run(c, ops[..|ops| - 1]);
      RunConserves(c, ops[..|ops| - 1], m);
      RunSafe(c, ops[..|ops| - 1]);
      if Enabled(before, ops[|ops| - 1]) {
        StepConserves(c, before, ops[|ops| - 1], m);
      }
    }
  }

  function TimesSent(ops: seq<Op>, m: Message): nat {
    if ops == [] then 0
    else TimesSent(ops[..|ops| - 1], m) + (if ops[|ops| - 1].Send? then One(ops[|ops| - 1].msg, m) else 0)
  }

  lemma {:induction false} PassedIsSent(c: Config, ops: seq<Op>, m: Message)
    ensures Run(c, ops).ledger.passed[m] == TimesSent(ops, m)
  {
    if ops != [] {
      var before, op := Run(c, ops[..|ops| - 1]), ops[|ops| - 1];
      PassedIsSent(c, ops[..|ops| - 1], m);
      RunSafe(c, ops[..|ops| - 1]);
      if Enabled(before, op) {
        StepConserves(c, before, op, m);
      }
    }
  }

  /** A message sent once is transmitted at most once, and not at all while it is queued, waiting or lost. */
  lemma {:induction false} TransmittedAtMostOnce(c: Config, ops: seq<Op>, m: Message)
    requires TimesSent(ops, m) == 1
    ensures var s := Run(c, ops);
            && s.ledger.transmitted[m] <= 1
            && (s.ledger.transmitted[m] == 1 ==>
                  && InQueue(s.offlineQueue, |s.offlineQueue|, m) == 0
                  && InTasks(s.lockQueue, |s.lockQueue|, m) == InHands(s.holders, |s.holders|, m) == 0
                  && s.ledger.evicted[m] == s.ledger.expired[m] == s.ledger.refused[m] == s.ledger.discarded[m] == 0)
  {
    RunConserves(c, ops, m);
    PassedIsSent(c, ops, m);
  }

  // ------------------------------------------------------------------
  // Order
  // ------------------------------------------------------------------

  function QueueEach(c: Config, s: State, msgs: seq<Queued>): State {
    if msgs == [] then s
    else
      var n := |msgs| - 1;
      QueueMessage(c, QueueEach(c, s, msgs[..n]), msgs[n].msg, msgs[n].enqueuedAt)
  }

  lemma LastPush<T>(s: seq<T>, e: T, n: nat)
    requires n >= 1
    ensures Last(s + [e], n) == (if |Last(s, n)| < n then Last(s, n) else Last(s, n)[1..]) + [e]
  {
  }

  /** However many messages are queued, the queue is the newest ones in the order they came. */
  lemma {:induction false} QueueKeepsNewest(c: Config, s: State, msgs: seq<Queued>)
    requires s.offlineQueue == Last(s.offlineQueue, Max(1, c.maxPendingMessages))
    ensures QueueEach(c, s, msgs).offlineQueue == Last(s.offlineQueue + msgs, Max(1, c.maxPendingMessages))
  {
    if msgs == [] {
      assert s.offlineQueue + [] == s.offlineQueue;
    } else {
      var n := |msgs| - 1;
      QueueKeepsNewest(c, s, msgs[..n]);
      assert s.offlineQueue + msgs == (s.offlineQueue + msgs[..n]) + [msgs[n]];
      LastPush(s.offlineQueue + msgs[..n], msgs[n], Max(1, c.maxPendingMessages));
    }
  }

  /** The calls that own or wait for the lock, in the order they will have it. */
  function InLine(s: State): seq<Task> {
    (if s.holders == [] then [] else [s.holders[0].task]) + s.lockQueue
  }

  function Sends(c: Config, pending: seq<Queued>, now: int): seq<Task> {
    if pending == [] then []
    else (if Stale(c, pending[0], now) then [] else [SendTask(pending[0].msg)]) + Sends(c, pending[1..], now)
  }

  ghost predicate ReadyToSend(s: State) {
    LockOk(s) && !s.isDestroyed && !s.reconnectExhausted && IsOpen(s.link)
  }

  lemma AcquireInLine(s: State, task: Task)
    requires ReadyToSend(s)
    ensures ReadyToSend(AcquireLock(s, task)) && InLine(AcquireLock(s, task)) == InLine(s) + [task]
    ensures AcquireLock(s, task).offlineQueue == s.offlineQueue
  {
  }

  lemma FlushOneInOrder(c: Config, s: State, q: Queued, now: int)
    requires ReadyToSend(s)
    ensures var r := FlushOne(c, s, q, now);
            && ReadyToSend(r) && r.offlineQueue == s.offlineQueue
            && InLine(r) == InLine(s) + (if Stale(c, q, now) then [] else [SendTask(q.msg)])
  {
    AcquireInLine(s, SendTask(q.msg));
  }

  lemma FlushNext(c: Config, s: State, pending: seq<Queued>, now: int)
    returns (t: State, rest: seq<Queued>, sent: seq<Task>)
    requires ReadyToSend(s) && pending != []
    ensures |rest| < |pending| && FlushAll(c, s, pending, now) == FlushAll(c, t, rest, now)
    ensures ReadyToSend(t) && t.offlineQueue == s.offlineQueue && InLine(t) == InLine(s) + sent
    ensures Sends(c, pending, now) == sent + Sends(c, rest, now)
  {
    FlushOneInOrder(c, s, pending[0], now);
    t, rest := FlushOne(c, s, pending[0], now), pending[1..];
    sent := if Stale(c, pending[0], now) then [] else [SendTask(pending[0].msg)];
  }

  /** Flushed onto an open socket, the messages still fresh stand in line in the order they were queued. */
  lemma {:induction false} FlushInOrder(c: Config, s: State, pending: seq<Queued>, now: int)
    requires ReadyToSend(s)
    ensures InLine(FlushAll(c, s, pending, now)) == InLine(s) + Sends(c, pending, now)
    ensures FlushAll(c, s, pending, now).offlineQueue == s.offlineQueue
    decreases |pending|
  {
    if pending == [] {
      assert InLine(s) + [] == InLine(s);
    } else {
      var t, rest, sent := FlushNext(c, s, pending, now);
      FlushInOrder(c, t, rest, now);
      assert InLine(s) + sent + Sends(c, rest, now) == InLine(s) + (sent + Sends(c, rest, now));
    }
  }

  /** Releasing serves the line from its front. */
  lemma ReleaseInLine(s: State)
    requires LockOk(s) && s.holders != []
    ensures InLine(ReleaseLock(s, 0)) == InLine(s)[1..]
  {
  }
}
