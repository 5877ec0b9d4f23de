/**
 * The line for the relayer's lock: who waits is served in turn, after a bounded
 * number of turns of the holders (src/relayer/WebSocketRelayer.ts, 94-111, 147-167, 399-519).
 */
module RelayerLine {
  import opened Common
  import opened Relayer
  import opened RelayerSafety
  import opened RelayerMessages

  /** How many turns the holder of the lock has had; it has three at most. */
  function Passed(s: State): nat {
    if s.holders == [] then 0
    else
      match s.holders[0].phase
      case Handed => 0
      case Backoff => 1
      case Establishing => 2
  }

  /** The lock changes hands or is opened. */
  predicate Serves(c: Config, s: State, op: Op) {
    op.Resume? && Enabled(s, op) && |InLine(Step(c, s, op))| < |InLine(s)|
  }

  /** How often that happens when `more` follows `before`. */
  function Served(c: Config, before: seq<Op>, more: seq<Op>): nat {
    if more == [] then 0
    else
      var n := |more| - 1;
      Served(c, before, more[..n]) + (if Serves(c, Run(c, before + more[..n]), more[n]) then 1 else 0)
  }

  /** How many turns the holders have had in between. */
  function Turns(c: Config, before: seq<Op>, more: seq<Op>): nat {
    if more == [] then 0
    else
      var n := |more| - 1;
      Turns(c, before, more[..n]) + (if more[n].Resume? && Enabled(Run(c, before + more[..n]), more[n]) then 1 else 0)
  }

  /** Nobody leaves the line and the holder stays where it is; `joined` stand at the end. */
  ghost predicate Joined(s: State, r: State, joined: seq<Task>) {
    InLine(r) == InLine(s) + joined && Passed(r) == Passed(s) && r.isDestroyed == s.isDestroyed
  }

  lemma AcquireJoins(s: State, task: Task)
    requires LockOk(s) && !s.isDestroyed
    ensures Joined(s, AcquireLock(s, task), [task])
  {
  }

  lemma SendNowJoins(c: Config, s: State, msg: Message, now: int) returns (joined: seq<Task>)
    requires LockOk(s) && !s.isDestroyed
    ensures Joined(s, SendNow(c, s, msg, now), joined)
  {
    if s.reconnectExhausted || !IsOpen(s.link) {
      joined := [];
    } else {
      AcquireJoins(s, SendTask(msg));
      joined := [SendTask(msg)];
    }
  }

  lemma FlushOneJoins(c: Config, s: State, q: Queued, now: int) returns (joined: seq<Task>)
    requires Safe(c, s) && !s.isDestroyed
    ensures Joined(s, FlushOne(c, s, q, now), joined) && Safe(c, FlushOne(c, s, q, now))
  {
    if Stale(c, q, now) {
      joined := [];
    } else {
      SendNowSafe(c, s, q.msg, now);
      joined := SendNowJoins(c, s, q.msg, now);
    }
  }

  lemma FlushJoins(c: Config, s: State, pending: seq<Queued>, now: int) returns (joined: seq<Task>)
    requires Safe(c, s) && !s.isDestroyed
    ensures Joined(s, FlushAll(c, s, pending, now), joined)
    decreases |pending|
  {
    if pending == [] {
      joined := [];
    } else {
      var first := FlushOneJoins(c, s, pending[0], now);
      var rest := FlushJoins(c, FlushOne(c, s, pending[0], now), pending[1..], now);
      joined := first + rest;
    }
  }

  lemma LinkLostJoins(c: Config, s: State) returns (joined: seq<Task>)
    requires LockOk(s) && !s.isDestroyed
    ensures Joined(s, StepLinkLost(c, s), joined)
  {
    var lost := s.(link := NoSocket);
    if ShouldAttemptReconnect(c, lost) {
      AcquireJoins(lost, ReconnectTask);
      joined := [ReconnectTask];
    } else {
      joined := [];
    }
  }

  lemma ConnectJoins(s: State) returns (joined: seq<Task>)
    requires LockOk(s) && !s.isDestroyed
    ensures Joined(s, StepConnect(s), joined)
  {
    if s.connecting {
      joined := [];
    } else {
      AcquireJoins(
        s.(reconnectEnabled := true, reconnectExhausted := false, reconnectAttempts := 0, connecting := true),
        ConnectTask);
      joined := [ConnectTask];
    }
  }

  /** Every step of another kind than a turn of the holder only adds to the line. */
  lemma OthersJoin(c: Config, s: State, op: Op) returns (joined: seq<Task>)
    requires Safe(c, s) && !s.isDestroyed && !op.Resume? && !op.Destroy?
    ensures Joined(s, Step(c, s, op), joined)
  {
    joined := [];
    match op
    case Send(msg, now) =>
      joined := SendNowJoins(c, s.(ledger := s.ledger.(passed := s.ledger.passed + multiset{msg})), msg, now);
    case Connect => joined := ConnectJoins(s);
    case Opened(now) =>
      var up := s.(reconnectAttempts := 0, reconnectExhausted := false, offlineQueue := []);
      joined := FlushJoins(c, up, s.offlineQueue, now);
    case LinkLost => joined := LinkLostJoins(c, s);
    case _ =>
  }

  /** After a turn the holder has had one more, or the next in line has the lock and has had none. */
  ghost predicate Turned(s: State, r: State) {
    && r.isDestroyed == s.isDestroyed
    && (if InLine(r) == InLine(s) then Passed(r) > Passed(s)
        else InLine(s) != [] && InLine(r) == InLine(s)[1..] && (r.holders != [] ==> r.holders[0].phase.Handed?))
  }

  lemma ReleaseTurns(s: State, done: State)
    requires LockOk(s) && LockOk(done) && s.holders != []
    requires done.holders == s.holders && done.lockQueue == s.lockQueue && done.isDestroyed == s.isDestroyed
    ensures Turned(s, ReleaseLock(done, 0))
  {
    ReleaseInLine(done);
    assert InLine(done) == InLine(s);
    assert |InLine(s)[1..]| < |InLine(s)|;
  }

  lemma EstablishTurns(s: State, opening: Opening)
    requires LockOk(s) && s.holders != [] && !s.holders[0].phase.Establishing?
    ensures Turned(s, Establish(s, 0, opening))
  {
    ReleaseTurns(s, s);
  }

  lemma SendTurns(c: Config, s: State, sendOk: bool, now: int)
    requires Safe(c, s) && s.holders != [] && s.holders[0].task.SendTask?
    ensures Turned(s, ReleaseLock(Conclude(c, s, s.holders[0].task.msg, sendOk, now), 0))
  {
    ConcludeSafe(c, s, s.holders[0].task.msg, sendOk, now);
    ReleaseTurns(s, Conclude(c, s, s.holders[0].task.msg, sendOk, now));
  }

  lemma ReconnectTurns(c: Config, s: State, opening: Opening)
    requires LockOk(s) && s.holders != [] && s.holders[0].task.ReconnectTask?
    ensures Turned(s, ResumeReconnect(c, s, 0, opening))
  {
    match s.holders[0].phase
    case Handed =>
      if !ShouldAttemptReconnect(c, s) {
        ReleaseTurns(s, GiveUpIfDown(c, s));
      }
    case Backoff =>
      ReleaseTurns(s, s);
      EstablishTurns(s, opening);
    case Establishing => ReleaseTurns(s, s);
  }

  lemma TurnTurns(c: Config, s: State, opening: Opening, sendOk: bool, now: int)
    requires Safe(c, s) && s.holders != []
    ensures Turned(s, StepResume(c, s, 0, opening, sendOk, now))
  {
    match s.holders[0].task
    case SendTask(msg) => SendTurns(c, s, sendOk, now);
    case ConnectTask =>
      if s.holders[0].phase.Handed? && !IsOpen(s.link) {
        EstablishTurns(s, opening);
      } else {
        ReleaseTurns(s, s);
      }
    case ReconnectTask => ReconnectTurns(c, s, opening);
  }

  /** The line has moved up by those served and grown by those who joined; three turns serve at least one. */
  ghost predicate Moves(s: State, r: State, joined: seq<Task>, served: nat, turns: nat) {
    && !r.isDestroyed && served <= |InLine(s) + joined|
    && InLine(r) == (InLine(s) + joined)[served..]
    && 3 * served + Passed(r) >= Passed(s) + turns
  }

  lemma StepMoves(c: Config, s: State, op: Op) returns (joined: seq<Task>)
    requires Safe(c, s) && !s.isDestroyed && Enabled(s, op) && !op.Destroy?
    ensures Moves(s, Step(c, s, op), joined, if Serves(c, s, op) then 1 else 0, if op.Resume? then 1 else 0)
    ensures Serves(c, s, op) && Step(c, s, op).holders != [] ==> Step(c, s, op).holders[0].phase.Handed?
  {
    if op.Resume? {
      joined := [];
      TurnTurns(c, s, op.opening, op.sendOk, op.now);
      assert InLine(s) + joined == InLine(s);
    } else {
      joined := OthersJoin(c, s, op);
    }
  }

  lemma MovesInTurn(
    s: State, t: State, r: State, first: seq<Task>, last: seq<Task>, k1: nat, k2: nat, n1: nat, n2: nat)
    requires Moves(s, t, first, k1, n1) && Moves(t, r, last, k2, n2)
    ensures Moves(s, r, first + last, k1 + k2, n1 + n2)
  {
    var line := InLine(s);
    assert line + (first + last) == line + first + last;
    assert (line + first + last)[k1..] == (line + first)[k1..] + last;
  }

  lemma StandsStill(s: State)
    requires !s.isDestroyed
    ensures Moves(s, s, [], 0, 0)
  {
    assert InLine(s) + [] == InLine(s);
  }

  /** A step of a run, whether it is enabled or not. */
  lemma NextMoves(c: Config, ops: seq<Op>, op: Op) returns (joined: seq<Task>)
    requires !Run(c, ops).isDestroyed && !op.Destroy?
    ensures Moves(Run(c, ops), Run(c, ops + [op]), joined, if Serves(c, Run(c, ops), op) then 1 else 0,
                  if op.Resume? && Enabled(Run(c, ops), op) then 1 else 0)
  {
    assert (ops + [op])[..|ops|] == ops;
    RunSafe(c, ops);
    if Enabled(Run(c, ops), op) {
      joined := StepMoves(c, Run(c, ops), op);
    } else {
      StandsStill(Run(c, ops));
      joined := [];
    }
  }

  lemma {:induction false} CountNext(c: Config, before: seq<Op>, more: seq<Op>, op: Op)
    ensures Served(c, before, more + [op]) ==
            Served(c, before, more) + (if Serves(c, Run(c, before + more), op) then 1 else 0)
    ensures Turns(c, before, more + [op]) ==
            Turns(c, before, more) + (if op.Resume? && Enabled(Run(c, before + more), op) then 1 else 0)
  {
    assert (more + [op])[..|more|] == more;
  }

  /** One step more. */
  lemma LineMovesOn(c: Config, before: seq<Op>, more: seq<Op>, op: Op, first: seq<Task>)
    returns (joined: seq<Task>)
    requires !op.Destroy?
    requires Moves(Run(c, before), Run(c, before + more), first, Served(c, before, more), Turns(c, before, more))
    ensures Moves(Run(c, before), Run(c, before + more + [op]), joined,
                  Served(c, before, more + [op]), Turns(c, before, more + [op]))
  {
    var t := Run(c, before + more);
    var last := NextMoves(c, before + more, op);
    CountNext(c, before, more, op);
    MovesInTurn(Run(c, before), t, Run(c, before + more + [op]), first, last,
                Served(c, before, more), if Serves(c, t, op) then 1 else 0,
                Turns(c, before, more), if op.Resume? && Enabled(t, op) then 1 else 0);
    joined := first + last;
  }

  /**
   * Until destroy(), the line is that of before with the newcomers behind it and
   * those served gone from its front; three turns of the holders serve at least one.
   */
  lemma LineMoves(c: Config, before: seq<Op>, more: seq<Op>) returns (joined: seq<Task>)
    requires !Run(c, before).isDestroyed && Destroy !in more
    ensures Moves(Run(c, before), Run(c, before + more), joined, Served(c, before, more), Turns(c, before, more))
  {
    if more == [] {
      assert before + more == before;
      StandsStill(Run(c, before));
      joined := [];
    } else {
      var n := |more| - 1;
      var first := LineMoves(c, before, more[..n]);
      joined := LineMovesOn(c, before, more[..n], more[n], first);
      assert more == more[..n] + [more[n]] && before + more == before + more[..n] + [more[n]];
    }
  }

  lemma ServedAt(c: Config, before: seq<Op>, more: seq<Op>, i: nat)
    returns (m: nat, behind: seq<Task>)
    requires !Run(c, before).isDestroyed && Destroy !in more
    requires i < |Run(c, before).lockQueue| && Served(c, before, more) >= i + 1
    ensures m <= |more| && Turns(c, before, more[..m]) <= 3 * (i + 1)
    ensures Run(c, before + more[..m]).holders == [Holder(Run(c, before).lockQueue[i], Handed)]
    ensures Run(c, before + more[..m]).lockQueue == Run(c, before).lockQueue[i + 1..] + behind
  {
    var n := |more| - 1;
    if Served(c, before, more[..n]) >= i + 1 {
      m, behind := ServedAt(c, before, more[..n], i);
      assert more[..n][..m] == more[..m];
    } else {
      m := |more|;
      assert more[..m] == more;
      behind := ServedNow(c, before, more, i);
    }
  }

  lemma ServedNow(c: Config, before: seq<Op>, more: seq<Op>, i: nat) returns (behind: seq<Task>)
    requires !Run(c, before).isDestroyed && Destroy !in more && more != []
    requires i < |Run(c, before).lockQueue| && Served(c, before, more) == i + 1
    requires Served(c, before, more[..|more| - 1]) == i
    ensures Turns(c, before, more) <= 3 * (i + 1)
    ensures Run(c, before + more).holders == [Holder(Run(c, before).lockQueue[i], Handed)]
    ensures Run(c, before + more).lockQueue == Run(c, before).lockQueue[i + 1..] + behind
  {
    var n := |more| - 1;
    var s, t, r := Run(c, before), Run(c, before + more[..n]), Run(c, before + more);
    behind := LineMoves(c, before, more);
    var _ := LineMoves(c, before, more[..n]);
    RunSafe(c, before);
    RunSafe(c, before + more[..n]);
    RunSafe(c, before + more);
    assert (before + more)[..|before + more| - 1] == before + more[..n];
    var _ := StepMoves(c, t, more[n]);
    FrontOfLine(s, r, behind, i);
  }

  lemma FrontOfLine(s: State, r: State, behind: seq<Task>, i: nat)
    requires LockOk(s) && LockOk(r) && !s.isDestroyed && !r.isDestroyed && i < |s.lockQueue|
    requires InLine(r) == (InLine(s) + behind)[i + 1..]
    ensures r.holders != [] && r.holders[0].task == s.lockQueue[i] && r.lockQueue == s.lockQueue[i + 1..] + behind
  {
    assert (InLine(s) + behind)[i + 1..] == s.lockQueue[i..] + behind;
    assert InLine(r)[0] == s.lockQueue[i];
    assert InLine(r)[1..] == r.lockQueue;
    assert (s.lockQueue[i..] + behind)[1..] == s.lockQueue[i + 1..] + behind;
  }

  /**
   * Who stands at place i of the line gets the lock, before anybody behind it,
   * within 3 (i + 1) turns of the holders, unless the relayer is destroyed.
   */
  lemma WaiterIsServed(c: Config, before: seq<Op>, more: seq<Op>, i: nat)
    returns (m: nat, behind: seq<Task>)
    requires !Run(c, before).isDestroyed && Destroy !in more
    requires i < |Run(c, before).lockQueue| && Turns(c, before, more) >= 3 * (i + 1)
    ensures m <= |more| && Turns(c, before, more[..m]) <= 3 * (i + 1)
    ensures Run(c, before + more[..m]).holders == [Holder(Run(c, before).lockQueue[i], Handed)]
    ensures Run(c, before + more[..m]).lockQueue == Run(c, before).lockQueue[i + 1..] + behind
  {
    var joined := LineMoves(c, before, more);
    m, behind := ServedAt(c, before, more, i);
  }
}
