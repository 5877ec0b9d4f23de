/**
 * The relayer's hand-off lock, offline queue and reconnect attempts
 * (src/relayer/WebSocketRelayer.ts, 94-111, 127-250, 317-435, 477-565). A step
 * is the code between two awaits. Sockets are not told apart: a socket may
 * open, close or fail at any moment, which allows every behaviour of real ones.
 */
module Relayer {
  import opened Common

  datatype Message = Message(kind: string, payload: string, id: Option<string>)

  /** A call that takes the lock. */
  datatype Task = SendTask(msg: Message) | ConnectTask | ReconnectTask

  /** How far the holder of the lock has come. */
  datatype Phase = Handed | Backoff | Establishing

  datatype Holder = Holder(task: Task, phase: Phase)

  datatype Link = NoSocket | Socket(open: bool)

  datatype Queued = Queued(msg: Message, enqueuedAt: int)

  /** Where messages have ended up, and all those passed to send(). */
  datatype Ledger = Ledger(
    passed: multiset<Message>, transmitted: multiset<Message>, evicted: multiset<Message>, expired: multiset<Message>,
    refused: multiset<Message>, discarded: multiset<Message>)

  datatype Config = Config(maxReconnectAttempts: nat, maxPendingMessages: int, offlineBufferTtlMs: int)

  datatype State = State(
    isDestroyed: bool, isLocked: bool, lockQueue: seq<Task>, holders: seq<Holder>, link: Link,
    reconnectAttempts: nat, reconnectEnabled: bool, reconnectExhausted: bool, connecting: bool,
    offlineQueue: seq<Queued>, ledger: Ledger)

  function Initial(): State {
    State(false, false, [], [], NoSocket, 0, true, false, false, [],
          Ledger(multiset{}, multiset{}, multiset{}, multiset{}, multiset{}, multiset{}))
  }

  predicate IsOpen(link: Link) { link.Socket? && link.open }

  // ------------------------------------------------------------------
  // Building blocks
  // ------------------------------------------------------------------

  function AcquireLock(s: State, task: Task): State {
    if !s.isLocked then s.(isLocked := true, holders := s.holders + [Holder(task, Handed)])
    else s.(lockQueue := s.lockQueue + [task])
  }

  /** The lock passes to the next in line without being opened. */
  function ReleaseLock(s: State, h: nat): State
    requires h < |s.holders|
  {
    var others := s.holders[..h] + s.holders[h + 1..];
    if s.lockQueue != [] then s.(lockQueue := s.lockQueue[1..], holders := others + [Holder(s.lockQueue[0], Handed)])
    else s.(isLocked := false, holders := others)
  }

  function QueueMessage(c: Config, s: State, msg: Message, now: int): State {
    var room :=
      if |s.offlineQueue| >= c.maxPendingMessages && s.offlineQueue != [] then
        s.(offlineQueue := s.offlineQueue[1..],
           ledger := s.ledger.(evicted := s.ledger.evicted + multiset{s.offlineQueue[0].msg}))
      else s;
    room.(offlineQueue := room.offlineQueue + [Queued(msg, now)])
  }

  function Refuse(s: State, msg: Message): State {
    s.(ledger := s.ledger.(refused := s.ledger.refused + multiset{msg}))
  }

  /** send() up to its first await. */
  function SendNow(c: Config, s: State, msg: Message, now: int): State {
    if s.isDestroyed || s.reconnectExhausted then Refuse(s, msg)
    else if !IsOpen(s.link) then QueueMessage(c, s, msg, now)
    else AcquireLock(s, SendTask(msg))
  }

  predicate Stale(c: Config, q: Queued, now: int) {
    c.offlineBufferTtlMs > 0 && now - q.enqueuedAt > c.offlineBufferTtlMs
  }

  function FlushOne(c: Config, s: State, q: Queued, now: int): State {
    if Stale(c, q, now) then s.(ledger := s.ledger.(expired := s.ledger.expired + multiset{q.msg}))
    else SendNow(c, s, q.msg, now)
  }

  function FlushAll(c: Config, s: State, pending: seq<Queued>, now: int): State
    decreases |pending|
  {
    if pending == [] then s else FlushAll(c, FlushOne(c, s, pending[0], now), pending[1..], now)
  }

  predicate ShouldAttemptReconnect(c: Config, s: State) {
    !s.isDestroyed && s.reconnectEnabled && s.reconnectAttempts < c.maxReconnectAttempts && !IsOpen(s.link)
  }

  predicate IsPermanentlyDown(c: Config, s: State) {
    !s.isDestroyed && s.reconnectEnabled && s.reconnectAttempts >= c.maxReconnectAttempts && !IsOpen(s.link)
  }

  function GiveUpIfDown(c: Config, s: State): State {
    if IsPermanentlyDown(c, s) then s.(reconnectExhausted := true) else s
  }

  // ------------------------------------------------------------------
  // Steps
  // ------------------------------------------------------------------

  /** What constructing a socket comes to. */
  datatype Opening = NoConstructor | ConstructorThrew | Created

  datatype Op =
    | Send(msg: Message, now: int)
    | Connect
    | ConnectSettled                   // the shared connect() promise is forgotten
    | Disconnect
    | Destroy
    | LinkChanged(open: bool)          // the socket's readyState moves
    | Opened(now: int)                 // onopen
    | LinkLost                         // onclose, or a heartbeat without an answer
    | Resume(h: nat, opening: Opening, sendOk: bool, now: int)  // the lock holder goes on

  predicate Enabled(s: State, op: Op) {
    op.Resume? ==> op.h < |s.holders|
  }

  function StepSend(c: Config, s: State, msg: Message, now: int): State {
    SendNow(c, s.(ledger := s.ledger.(passed := s.ledger.passed + multiset{msg})), msg, now)
  }

  function StepConnect(s: State): State {
    if s.isDestroyed then s
    else
      var r := s.(reconnectEnabled := true, reconnectExhausted := false, reconnectAttempts := 0);
      if r.connecting then r else AcquireLock(r.(connecting := true), ConnectTask)
  }

  function StepDisconnect(s: State): State {
    s.(reconnectEnabled := false, connecting := false, reconnectAttempts := 0, reconnectExhausted := false,
       link := NoSocket)
  }

  function StepDestroy(c: Config, s: State): State {
    s.(isDestroyed := true, reconnectEnabled := false, reconnectExhausted := true, connecting := false,
       offlineQueue := [], reconnectAttempts := c.maxReconnectAttempts, link := NoSocket,
       lockQueue := [], isLocked := false,
       ledger := s.ledger.(discarded := s.ledger.discarded + QueueMsgs(s.offlineQueue) + TaskMsgs(s.lockQueue)))
  }

  function StepOpened(c: Config, s: State, now: int): State {
    FlushAll(c, s.(reconnectAttempts := 0, reconnectExhausted := false, offlineQueue := []), s.offlineQueue, now)
  }

  function StepLinkLost(c: Config, s: State): State {
    var lost := s.(link := NoSocket);
    if ShouldAttemptReconnect(c, lost) then AcquireLock(lost, ReconnectTask) else GiveUpIfDown(c, lost)
  }

  /** establishConnection() by the holder: it waits for the new socket, or is done at once. */
  function Establish(s: State, h: nat, opening: Opening): State
    requires h < |s.holders|
  {
    if opening.Created? then s.(link := Socket(false), holders := s.holders[h := s.holders[h].(phase := Establishing)])
    else ReleaseLock(s, h)
  }

  /** send() once it has the lock: the checks again, then the socket. */
  function Conclude(c: Config, s: State, msg: Message, sendOk: bool, now: int): State {
    if s.isDestroyed || s.reconnectExhausted then Refuse(s, msg)
    else if !IsOpen(s.link) then QueueMessage(c, s, msg, now)
    else if sendOk then s.(ledger := s.ledger.(transmitted := s.ledger.transmitted + multiset{msg}))
    else Refuse(s, msg)
  }

  /** One more attempt, after a delay during which the lock is kept. */
  function BackOff(s: State, h: nat): State
    requires h < |s.holders|
  {
    s.(reconnectAttempts := s.reconnectAttempts + 1, holders := s.holders[h := s.holders[h].(phase := Backoff)])
  }

  function ResumeReconnect(c: Config, s: State, h: nat, opening: Opening): State
    requires h < |s.holders|
  {
    match s.holders[h].phase
    case Handed => if ShouldAttemptReconnect(c, s) then BackOff(s, h) else ReleaseLock(GiveUpIfDown(c, s), h)
    case Backoff =>
      if s.isDestroyed || !s.reconnectEnabled then ReleaseLock(s, h) else Establish(s, h, opening)
    case Establishing => ReleaseLock(s, h)
  }

  function StepResume(c: Config, s: State, h: nat, opening: Opening, sendOk: bool, now: int): State
    requires h < |s.holders|
  {
    match s.holders[h].task
    case SendTask(msg) => ReleaseLock(Conclude(c, s, msg, sendOk, now), h)
    case ConnectTask =>
      if s.holders[h].phase.Handed? && !IsOpen(s.link) then Establish(s, h, opening) else ReleaseLock(s, h)
    case ReconnectTask => ResumeReconnect(c, s, h, opening)
  }

  function Step(c: Config, s: State, op: Op): State
    requires Enabled(s, op)
  {
    match op
    case Send(msg, now) => StepSend(c, s, msg, now)
    case Connect => StepConnect(s)
    case ConnectSettled => s.(connecting := false)
    case Disconnect => StepDisconnect(s)
    case Destroy => StepDestroy(c, s)
    case LinkChanged(open) => if s.link.Socket? then s.(link := Socket(open)) else s
    case Opened(now) => StepOpened(c, s, now)
    case LinkLost => StepLinkLost(c, s)
    case Resume(h, opening, sendOk, now) => StepResume(c, s, h, opening, sendOk, now)
  }

  // ------------------------------------------------------------------
  // The messages of a list
  // ------------------------------------------------------------------

  function MsgOf(t: Task): multiset<Message> { if t.SendTask? then multiset{t.msg} else multiset{} }

  function QueueMsgs(q: seq<Queued>): multiset<Message> {
    if q == [] then multiset{} else multiset{q[0].msg} + QueueMsgs(q[1..])
  }

  function TaskMsgs(q: seq<Task>): multiset<Message> {
    if q == [] then multiset{} else MsgOf(q[0]) + TaskMsgs(q[1..])
  }

  // ------------------------------------------------------------------
  // Runs
  // ------------------------------------------------------------------

  /** A step that is not enabled does not happen. */
  function Run(c: Config, ops: seq<Op>): State {
    if ops == [] then Initial()
    else
      var before := Run(c, ops[..|ops| - 1]);
      if Enabled(before, ops[|ops| - 1]) then Step(c, before, ops[|ops| - 1]) else before
  }
}
