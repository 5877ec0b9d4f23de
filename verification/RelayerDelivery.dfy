/**
 * What becomes of a message and of a lost connection, in every reachable state:
 * offline messages are kept and go out in the end, and the socket is reopened
 * (src/relayer/WebSocketRelayer.ts, 127-167, 355-435, 477-537).
 */
module RelayerDelivery {
  import opened Common
  import opened Relayer
  import opened RelayerSafety
  import opened RelayerMessages

  /** send() does not reject. */
  predicate Live(s: State) {
    !s.isDestroyed && !s.reconnectExhausted
  }

  predicate Up(s: State) {
    s.link == Socket(true)
  }

  /** A bounded queue with one entry more: the oldest makes room. */
  function Pushed(c: Config, q: seq<Queued>, e: Queued): seq<Queued> {
    (if |q| >= c.maxPendingMessages && q != [] then q[1..] else q) + [e]
  }

  /** The messages lost, sent or given up on so far, but for those pushed out of the queue. */
  ghost predicate SameFates(a: Ledger, b: Ledger) {
    a.transmitted == b.transmitted && a.refused == b.refused && a.expired == b.expired && a.discarded == b.discarded
  }

  lemma {:induction false} Next(c: Config, ops: seq<Op>, op: Op)
    ensures Run(c, ops + [op]) == if Enabled(Run(c, ops), op) then Step(c, Run(c, ops), op) else Run(c, ops)
  {
    assert (ops + [op])[..|ops|] == ops;
  }

  // ------------------------------------------------------------------
  // send()
  // ------------------------------------------------------------------

  lemma SendRefused(c: Config, s: State, msg: Message, now: int)
    requires !Live(s)
    ensures var r := StepSend(c, s, msg, now);
            && r.ledger.passed == s.ledger.passed + multiset{msg}
            && r == s.(ledger := s.ledger.(passed := r.ledger.passed, refused := s.ledger.refused + multiset{msg}))
  {
  }

  lemma SendOffline(c: Config, s: State, msg: Message, now: int)
    requires Live(s) && !Up(s)
    ensures var r := StepSend(c, s, msg, now);
            && r.ledger.passed == s.ledger.passed + multiset{msg} && SameFates(r.ledger, s.ledger)
            && r.offlineQueue == Pushed(c, s.offlineQueue, Queued(msg, now)) && InLine(r) == InLine(s)
            && r.isDestroyed == s.isDestroyed
  {
  }

  lemma SendOnline(c: Config, s: State, msg: Message, now: int)
    requires LockOk(s) && Live(s) && Up(s)
    ensures var r := StepSend(c, s, msg, now);
            && r.ledger == s.ledger.(passed := s.ledger.passed + multiset{msg})
            && r.offlineQueue == s.offlineQueue && InLine(r) == InLine(s) + [SendTask(msg)]
            && r.isDestroyed == s.isDestroyed
  {
    AcquireInLine(s.(ledger := s.ledger.(passed := s.ledger.passed + multiset{msg})), SendTask(msg));
  }

  /** In every reachable state: refused when given up, queued when offline, in line for the lock when online. */
  lemma {:induction false} SendExactly(c: Config, ops: seq<Op>, msg: Message, now: int)
    ensures var s, r := Run(c, ops), Run(c, ops + [Send(msg, now)]);
            && r.ledger.passed == s.ledger.passed + multiset{msg}
            && (!Live(s) ==>
                  r == s.(ledger := s.ledger.(passed := r.ledger.passed, refused := s.ledger.refused + multiset{msg})))
            && (Live(s) && !Up(s) ==>
                  r.offlineQueue == Pushed(c, s.offlineQueue, Queued(msg, now)) && InLine(r) == InLine(s)
                  && SameFates(r.ledger, s.ledger))
            && (Live(s) && Up(s) ==>
                  r.offlineQueue == s.offlineQueue && InLine(r) == InLine(s) + [SendTask(msg)]
                  && r.ledger == s.ledger.(passed := r.ledger.passed))
  {
    Next(c, ops, Send(msg, now));
    RunSafe(c, ops);
    var s := Run(c, ops);
    if !Live(s) {
      SendRefused(c, s, msg, now);
    } else if !Up(s) {
      SendOffline(c, s, msg, now);
    } else {
      SendOnline(c, s, msg, now);
    }
  }

  /** Handing the lock on moves the line and nothing else. */
  lemma ReleaseKeeps(s: State)
    requires LockOk(s) && s.holders != []
    ensures var r := ReleaseLock(s, 0);
            && r.offlineQueue == s.offlineQueue && r.ledger == s.ledger && r.link == s.link
            && r.isDestroyed == s.isDestroyed && r.reconnectExhausted == s.reconnectExhausted
            && r.reconnectAttempts == s.reconnectAttempts && InLine(r) == InLine(s)[1..]
  {
    ReleaseInLine(s);
  }

  lemma ConcludeAt(c: Config, s: State, msg: Message, sendOk: bool, now: int)
    ensures var r := Conclude(c, s, msg, sendOk, now);
            && r == s.(offlineQueue := r.offlineQueue, ledger := r.ledger)
            && (Live(s) && !Up(s) ==>
                  r.offlineQueue == Pushed(c, s.offlineQueue, Queued(msg, now)) && SameFates(r.ledger, s.ledger))
            && (!Live(s) || Up(s) ==> r.offlineQueue == s.offlineQueue)
            && (Live(s) && Up(s) && sendOk ==>
                  r.ledger == s.ledger.(transmitted := s.ledger.transmitted + multiset{msg}))
            && (!Live(s) || (Up(s) && !sendOk) ==>
                  r.ledger == s.ledger.(refused := s.ledger.refused + multiset{msg}))
  {
  }

  /** A send() with the lock: refused when given up meanwhile, queued again when offline, else handed to the socket. */
  lemma {:induction false} HolderSends(c: Config, ops: seq<Op>, opening: Opening, sendOk: bool, now: int)
    requires Run(c, ops).holders != [] && Run(c, ops).holders[0].task.SendTask?
    ensures var s, r := Run(c, ops), Run(c, ops + [Resume(0, opening, sendOk, now)]);
            var msg := s.holders[0].task.msg;
            && InLine(r) == InLine(s)[1..]
            && (Live(s) && !Up(s) ==>
                  r.offlineQueue == Pushed(c, s.offlineQueue, Queued(msg, now)) && SameFates(r.ledger, s.ledger))
            && (!Live(s) || Up(s) ==> r.offlineQueue == s.offlineQueue)
            && (Live(s) && Up(s) && sendOk ==>
                  r.ledger == s.ledger.(transmitted := s.ledger.transmitted + multiset{msg}))
            && (!Live(s) || (Up(s) && !sendOk) ==>
                  r.ledger == s.ledger.(refused := s.ledger.refused + multiset{msg}))
  {
    var s := Run(c, ops);
    Next(c, ops, Resume(0, opening, sendOk, now));
    RunSafe(c, ops);
    ConcludeAt(c, s, s.holders[0].task.msg, sendOk, now);
    ReleaseKeeps(Conclude(c, s, s.holders[0].task.msg, sendOk, now));
  }

  // ------------------------------------------------------------------
  // The offline queue along a run
  // ------------------------------------------------------------------

  /** The step queues a message: a send() made or resumed while offline. */
  predicate Queues(s: State, op: Op) {
    && Enabled(s, op) && Live(s) && !Up(s)
    && (op.Send? || (op.Resume? && s.holders[op.h].task.SendTask?))
  }

  function QueuedBy(s: State, op: Op): Queued
    requires Queues(s, op)
  {
    Queued(if op.Send? then op.msg else s.holders[op.h].task.msg, op.now)
  }

  function TimesQueued(c: Config, before: seq<Op>, more: seq<Op>): nat {
    if more == [] then 0
    else
      var n := |more| - 1;
      TimesQueued(c, before, more[..n]) + (if Queues(Run(c, before + more[..n]), more[n]) then 1 else 0)
  }

  lemma {:induction false} QueueMoves(c: Config, ops: seq<Op>, op: Op)
    requires !op.Opened? && !op.Destroy?
    ensures var s, r := Run(c, ops), Run(c, ops + [op]);
            && r.isDestroyed == s.isDestroyed
            && r.offlineQueue == if Queues(s, op) then Pushed(c, s.offlineQueue, QueuedBy(s, op)) else s.offlineQueue
  {
    Next(c, ops, op);
    RunSafe(c, ops);
    if Enabled(Run(c, ops), op) {
      QueueStep(c, Run(c, ops), op);
    }
  }

  lemma QueueStep(c: Config, s: State, op: Op)
    requires LockOk(s) && Enabled(s, op) && !op.Opened? && !op.Destroy?
    ensures var r := Step(c, s, op);
            && r.isDestroyed == s.isDestroyed
            && r.offlineQueue == if Queues(s, op) then Pushed(c, s.offlineQueue, QueuedBy(s, op)) else s.offlineQueue
  {
    match op
    case Send(msg, now) =>
      if !Live(s) {
        SendRefused(c, s, msg, now);
      } else if !Up(s) {
        SendOffline(c, s, msg, now);
      } else {
        SendOnline(c, s, msg, now);
      }
    case Resume(h, opening, sendOk, now) => ResumeQueue(c, s, opening, sendOk, now);
    case _ =>
  }

  lemma EstablishQueue(s: State, opening: Opening)
    requires LockOk(s) && s.holders != []
    ensures var r := Establish(s, 0, opening);
            r.isDestroyed == s.isDestroyed && r.offlineQueue == s.offlineQueue
  {
    ReleaseKeeps(s);
  }

  lemma ReconnectQueue(c: Config, s: State, opening: Opening)
    requires LockOk(s) && s.holders != []
    ensures var r := ResumeReconnect(c, s, 0, opening);
            r.isDestroyed == s.isDestroyed && r.offlineQueue == s.offlineQueue
  {
    match s.holders[0].phase
    case Handed =>
      if !ShouldAttemptReconnect(c, s) {
        ReleaseKeeps(GiveUpIfDown(c, s));
      }
    case Backoff =>
      ReleaseKeeps(s);
      EstablishQueue(s, opening);
    case Establishing => ReleaseKeeps(s);
  }

  lemma SendQueue(c: Config, s: State, msg: Message, sendOk: bool, now: int)
    requires LockOk(s) && s.holders != []
    ensures var r := ReleaseLock(Conclude(c, s, msg, sendOk, now), 0);
            && r.isDestroyed == s.isDestroyed
            && r.offlineQueue ==
               if Live(s) && !Up(s) then Pushed(c, s.offlineQueue, Queued(msg, now)) else s.offlineQueue
  {
    ConcludeAt(c, s, msg, sendOk, now);
    ReleaseKeeps(Conclude(c, s, msg, sendOk, now));
  }

  lemma ResumeQueue(c: Config, s: State, opening: Opening, sendOk: bool, now: int)
    requires LockOk(s) && s.holders != []
    ensures var op := Resume(0, opening, sendOk, now);
            var r := StepResume(c, s, 0, opening, sendOk, now);
            && r.isDestroyed == s.isDestroyed
            && r.offlineQueue == if Queues(s, op) then Pushed(c, s.offlineQueue, QueuedBy(s, op)) else s.offlineQueue
  {
    match s.holders[0].task
    case SendTask(msg) => SendQueue(c, s, msg, sendOk, now);
    case ConnectTask =>
      ReleaseKeeps(s);
      EstablishQueue(s, opening);
    case ReconnectTask => ReconnectQueue(c, s, opening);
  }

  /** Entry e is followed by d others. */
  predicate FromEnd(q: seq<Queued>, d: nat, e: Queued) {
    d < |q| && q[|q| - 1 - d] == e
  }

  lemma PushMovesBack(c: Config, q: seq<Queued>, d: nat, e: Queued, pushed: Queued)
    requires FromEnd(q, d, e) && d + 1 < Max(1, c.maxPendingMessages)
    ensures FromEnd(Pushed(c, q, pushed), d + 1, e)
  {
  }

  /** Entries leave the queue, but for opening and destroying, only when newer ones fill it. */
  lemma {:induction false} StaysQueued(c: Config, before: seq<Op>, more: seq<Op>, e: Queued)
    requires FromEnd(Run(c, before).offlineQueue, 0, e)
    requires forall i :: 0 <= i < |more| ==> !more[i].Opened? && !more[i].Destroy?
    requires TimesQueued(c, before, more) < Max(1, c.maxPendingMessages)
    ensures FromEnd(Run(c, before + more).offlineQueue, TimesQueued(c, before, more), e)
    ensures Run(c, before + more).isDestroyed == Run(c, before).isDestroyed
  {
    if more == [] {
      assert before + more == before;
    } else {
      var n := |more| - 1;
      assert before + more == before + more[..n] + [more[n]];
      StaysQueued(c, before, more[..n], e);
      QueueMoves(c, before + more[..n], more[n]);
      var t := Run(c, before + more[..n]);
      if Queues(t, more[n]) {
        PushMovesBack(c, t.offlineQueue, TimesQueued(c, before, more[..n]), e, QueuedBy(t, more[n]));
      }
    }
  }

  // ------------------------------------------------------------------
  // Opening the socket
  // ------------------------------------------------------------------

  /** Queued for longer than the buffer keeps messages. */
  predicate Aged(c: Config, q: Queued, now: int) {
    c.offlineBufferTtlMs > 0 && now - q.enqueuedAt > c.offlineBufferTtlMs
  }

  function AgedCopies(c: Config, pending: seq<Queued>, now: int, m: Message): nat
    decreases |pending|
  {
    if pending == [] then 0
    else
      (if pending[0].msg == m && Aged(c, pending[0], now) then 1 else 0) + AgedCopies(c, pending[1..], now, m)
  }

  lemma {:induction false} AgedCounts(c: Config, pending: seq<Queued>, now: int, q: Queued)
    requires q in pending && Aged(c, q, now)
    ensures AgedCopies(c, pending, now, q.msg) > 0
    decreases |pending|
  {
    if pending[0] != q {
      AgedCounts(c, pending[1..], now, q);
    }
  }

  lemma {:induction false} FreshIsSent(c: Config, pending: seq<Queued>, now: int, q: Queued)
    requires q in pending && !Aged(c, q, now)
    ensures SendTask(q.msg) in Sends(c, pending, now)
    decreases |pending|
  {
    if pending[0] != q {
      FreshIsSent(c, pending[1..], now, q);
    }
  }

  lemma FlushOneExpires(c: Config, s: State, q: Queued, now: int, m: Message)
    requires ReadyToSend(s)
    ensures FlushOne(c, s, q, now).ledger.expired[m] ==
            s.ledger.expired[m] + (if q.msg == m && Aged(c, q, now) then 1 else 0)
  {
  }

  /** Exactly the aged messages expire. */
  lemma {:induction false} FlushExpires(c: Config, s: State, pending: seq<Queued>, now: int, m: Message)
    requires ReadyToSend(s)
    ensures FlushAll(c, s, pending, now).ledger.expired[m] ==
            s.ledger.expired[m] + AgedCopies(c, pending, now, m)
    decreases |pending|
  {
    if pending != [] {
      FlushOneExpires(c, s, pending[0], now, m);
      FlushOneInOrder(c, s, pending[0], now);
      FlushExpires(c, FlushOne(c, s, pending[0], now), pending[1..], now, m);
    }
  }

  /** When an open socket reports so, the whole queue is sent or has expired, and the relayer takes messages again. */
  lemma {:induction false} OpenedFlushes(c: Config, ops: seq<Op>, now: int)
    requires !Run(c, ops).isDestroyed && Up(Run(c, ops))
    ensures var s, r := Run(c, ops), Run(c, ops + [Opened(now)]);
            && Live(r) && r.offlineQueue == [] && r.reconnectAttempts == 0
            && InLine(r) == InLine(s) + Sends(c, s.offlineQueue, now)
            && forall m :: r.ledger.expired[m] == s.ledger.expired[m] + AgedCopies(c, s.offlineQueue, now, m)
  {
    var s := Run(c, ops);
    Next(c, ops, Opened(now));
    RunSafe(c, ops);
    var up := s.(reconnectAttempts := 0, reconnectExhausted := false, offlineQueue := []);
    FlushInOrder(c, up, s.offlineQueue, now);
    FlushKeepsRest(c, up, s.offlineQueue, now);
    forall m
      ensures FlushAll(c, up, s.offlineQueue, now).ledger.expired[m] ==
              s.ledger.expired[m] + AgedCopies(c, s.offlineQueue, now, m)
    {
      FlushExpires(c, up, s.offlineQueue, now, m);
    }
  }

  lemma {:induction false} FlushKeepsRest(c: Config, s: State, pending: seq<Queued>, now: int)
    requires ReadyToSend(s)
    ensures var r := FlushAll(c, s, pending, now);
            Live(r) && r.reconnectAttempts == s.reconnectAttempts
    decreases |pending|
  {
    if pending != [] {
      FlushOneInOrder(c, s, pending[0], now);
      FlushKeepsRest(c, FlushOne(c, s, pending[0], now), pending[1..], now);
    }
  }

  /**
   * A message sent while offline, with fewer queued after it than the queue holds
   * and no destroy(), is in line for the socket once that opens, or has expired by its age.
   */
  lemma {:induction false} OfflineMessageGoesOut(
    c: Config, before: seq<Op>, msg: Message, at: int, more: seq<Op>, now: int)
    requires Live(Run(c, before)) && !Up(Run(c, before))
    requires forall i :: 0 <= i < |more| ==> !more[i].Opened? && !more[i].Destroy?
    requires TimesQueued(c, before + [Send(msg, at)], more) < Max(1, c.maxPendingMessages)
    requires Up(Run(c, before + [Send(msg, at)] + more))
    ensures var s := Run(c, before + [Send(msg, at)] + more);
            var r := Run(c, before + [Send(msg, at)] + more + [Opened(now)]);
            if c.offlineBufferTtlMs > 0 && now - at > c.offlineBufferTtlMs
            then r.ledger.expired[msg] > s.ledger.expired[msg]
            else SendTask(msg) in InLine(r)
  {
    var sent, e := before + [Send(msg, at)], Queued(msg, at);
    SendExactly(c, before, msg, at);
    QueueMoves(c, before, Send(msg, at));
    StaysQueued(c, sent, more, e);
    OpenedFlushes(c, sent + more, now);
    var q := Run(c, sent + more).offlineQueue;
    assert e in q;
    if Aged(c, e, now) {
      AgedCounts(c, q, now, e);
    } else {
      FreshIsSent(c, q, now, e);
    }
  }

  // ------------------------------------------------------------------
  // Connections
  // ------------------------------------------------------------------

  /** A reconnect may still be tried, or all have been. */
  predicate MayReconnect(c: Config, s: State) {
    !s.isDestroyed && s.reconnectEnabled && s.reconnectAttempts < c.maxReconnectAttempts
  }

  predicate AllTried(c: Config, s: State) {
    !s.isDestroyed && s.reconnectEnabled && s.reconnectAttempts >= c.maxReconnectAttempts
  }

  lemma AcquireAt(s: State, task: Task)
    requires LockOk(s) && !s.isDestroyed
    ensures var r := AcquireLock(s, task);
            && InLine(r) == InLine(s) + [task]
            && r == s.(isLocked := r.isLocked, holders := r.holders, lockQueue := r.lockQueue)
  {
  }

  lemma LinkLostAt(c: Config, s: State)
    requires LockOk(s)
    ensures var r := StepLinkLost(c, s);
            && r.link == NoSocket && r.offlineQueue == s.offlineQueue && r.ledger == s.ledger
            && InLine(r) == InLine(s) + (if MayReconnect(c, s) then [ReconnectTask] else [])
            && r.reconnectExhausted == (s.reconnectExhausted || AllTried(c, s))
  {
    var lost := s.(link := NoSocket);
    assert InLine(lost) == InLine(s) && InLine(s) + [] == InLine(s);
    if MayReconnect(c, s) {
      AcquireAt(lost, ReconnectTask);
    }
  }

  /** A lost link asks for a reconnect while attempts are left, and gives up for good when none is. */
  lemma {:induction false} LostLinkReconnects(c: Config, ops: seq<Op>)
    ensures var s, r := Run(c, ops), Run(c, ops + [LinkLost]);
            && r.link == NoSocket && r.offlineQueue == s.offlineQueue && r.ledger == s.ledger
            && InLine(r) == InLine(s) + (if MayReconnect(c, s) then [ReconnectTask] else [])
            && r.reconnectExhausted == (s.reconnectExhausted || AllTried(c, s))
  {
    Next(c, ops, LinkLost);
    RunSafe(c, ops);
    LinkLostAt(c, Run(c, ops));
  }

  lemma ReconnectBegins(c: Config, s: State, opening: Opening)
    requires LockOk(s) && s.holders == [Holder(ReconnectTask, Handed)]
    ensures var r := ResumeReconnect(c, s, 0, opening);
            if MayReconnect(c, s) && !Up(s)
            then r == s.(reconnectAttempts := s.reconnectAttempts + 1, holders := [Holder(ReconnectTask, Backoff)])
            else && InLine(r) == InLine(s)[1..] && r.link == s.link && r.reconnectAttempts == s.reconnectAttempts
                 && r.reconnectExhausted == (s.reconnectExhausted || (AllTried(c, s) && !Up(s)))
  {
    ReleaseKeeps(GiveUpIfDown(c, s));
  }

  lemma ReconnectEnds(c: Config, s: State, opening: Opening)
    requires LockOk(s) && s.holders != [] && s.holders[0].task == ReconnectTask && !s.holders[0].phase.Handed?
    ensures var r := ResumeReconnect(c, s, 0, opening);
            if s.holders[0].phase.Backoff? && !s.isDestroyed && s.reconnectEnabled && opening.Created?
            then r == s.(link := Socket(false), holders := [Holder(ReconnectTask, Establishing)])
            else InLine(r) == InLine(s)[1..] && r.link == s.link
  {
    ReleaseKeeps(s);
  }

  /** A reconnect with the lock: one attempt more after a delay, then a new socket; or nothing, if needless by then. */
  lemma {:induction false} ReconnectGoesOn(c: Config, ops: seq<Op>, opening: Opening, sendOk: bool, now: int)
    requires Run(c, ops).holders != [] && Run(c, ops).holders[0].task == ReconnectTask
    ensures var s, r := Run(c, ops), Run(c, ops + [Resume(0, opening, sendOk, now)]);
            match s.holders[0].phase
            case Handed =>
              if MayReconnect(c, s) && !Up(s)
              then r == s.(reconnectAttempts := s.reconnectAttempts + 1, holders := [Holder(ReconnectTask, Backoff)])
              else && InLine(r) == InLine(s)[1..] && r.link == s.link && r.reconnectAttempts == s.reconnectAttempts
                   && r.reconnectExhausted == (s.reconnectExhausted || (AllTried(c, s) && !Up(s)))
            case Backoff =>
              if !s.isDestroyed && s.reconnectEnabled && opening.Created?
              then r == s.(link := Socket(false), holders := [Holder(ReconnectTask, Establishing)])
              else InLine(r) == InLine(s)[1..] && r.link == s.link
            case Establishing => InLine(r) == InLine(s)[1..] && r.link == s.link
  {
    Next(c, ops, Resume(0, opening, sendOk, now));
    RunSafe(c, ops);
    if Run(c, ops).holders[0].phase.Handed? {
      ReconnectBegins(c, Run(c, ops), opening);
    } else {
      ReconnectEnds(c, Run(c, ops), opening);
    }
  }

  /** connect() starts afresh and stands in line, unless one is pending; on a destroyed relayer it does nothing. */
  lemma {:induction false} ConnectAsks(c: Config, ops: seq<Op>)
    ensures var s, r := Run(c, ops), Run(c, ops + [Connect]);
            if s.isDestroyed then r == s
            else
              && Live(r) && r.reconnectEnabled && r.reconnectAttempts == 0 && r.connecting
              && InLine(r) == InLine(s) + (if s.connecting then [] else [ConnectTask])
              && r.link == s.link && r.offlineQueue == s.offlineQueue
  {
    Next(c, ops, Connect);
    RunSafe(c, ops);
  }

  lemma ConnectAt(s: State, opening: Opening, c: Config)
    requires LockOk(s) && s.holders != [] && s.holders[0].task == ConnectTask
    ensures var r := StepResume(c, s, 0, opening, false, 0);
            if s.holders[0].phase.Handed? && !Up(s) && opening.Created?
            then r == s.(link := Socket(false), holders := [Holder(ConnectTask, Establishing)])
            else InLine(r) == InLine(s)[1..] && r.link == s.link
  {
    ReleaseKeeps(s);
  }

  /** Once a pending connect() has settled, another one stands in line again. */
  lemma {:induction false} SettledMayConnect(c: Config, ops: seq<Op>)
    requires !Run(c, ops).isDestroyed
    ensures InLine(Run(c, ops + [ConnectSettled] + [Connect])) == InLine(Run(c, ops)) + [ConnectTask]
  {
    Next(c, ops, ConnectSettled);
    ConnectAsks(c, ops + [ConnectSettled]);
  }

  /** A connect() with the lock opens a socket unless one is open already. */
  lemma {:induction false} ConnectGoesOn(c: Config, ops: seq<Op>, opening: Opening, sendOk: bool, now: int)
    requires Run(c, ops).holders != [] && Run(c, ops).holders[0].task == ConnectTask
    ensures var s, r := Run(c, ops), Run(c, ops + [Resume(0, opening, sendOk, now)]);
            if s.holders[0].phase.Handed? && !Up(s) && opening.Created?
            then r == s.(link := Socket(false), holders := [Holder(ConnectTask, Establishing)])
            else InLine(r) == InLine(s)[1..] && r.link == s.link
  {
    Next(c, ops, Resume(0, opening, sendOk, now));
    RunSafe(c, ops);
    ConnectAt(Run(c, ops), opening, c);
  }

  /** disconnect() closes the socket and ends reconnecting, but keeps queue and line. */
  lemma {:induction false} DisconnectExactly(c: Config, ops: seq<Op>)
    ensures var s, r := Run(c, ops), Run(c, ops + [Disconnect]);
            && r.link == NoSocket && !MayReconnect(c, r) && !r.reconnectExhausted && !r.connecting
            && InLine(r) == InLine(s) && r.offlineQueue == s.offlineQueue && r.ledger == s.ledger
            && r.isDestroyed == s.isDestroyed
  {
    Next(c, ops, Disconnect);
  }
}
