/**
 * The relayer object: every method is one step of the state machine
 * (src/relayer/WebSocketRelayer.ts, 94-111, 127-250, 317-435, 477-565).
 */
module RelayerObject {
  import opened Common
  import opened Relayer
  import opened RelayerSafety

  /** `holders` are the suspended calls that own the lock; the ledger only records. */
  class WebSocketRelayer {
    const config: Config
    var isDestroyed: bool
    var isLocked: bool
    var lockQueue: seq<Task>
    var holders: seq<Holder>
    var link: Link
    var reconnectAttempts: nat
    var reconnectEnabled: bool
    var reconnectExhausted: bool
    var connecting: bool
    var offlineQueue: seq<Queued>
    ghost var ledger: Ledger

    ghost function View(): State
      reads this
    {
      State(isDestroyed, isLocked, lockQueue, holders, link, reconnectAttempts, reconnectEnabled, reconnectExhausted,
            connecting, offlineQueue, ledger)
    }

    constructor (c: Config)
      ensures config == c && View() == Initial() && Safe(config, View())
    {
      config := c;
      isDestroyed, isLocked, lockQueue, holders, link := false, false, [], [], NoSocket;
      reconnectAttempts, reconnectEnabled, reconnectExhausted, connecting, offlineQueue := 0, true, false, false, [];
      ledger := Ledger(multiset{}, multiset{}, multiset{}, multiset{}, multiset{}, multiset{});
    }

    method TakeLock(task: Task)
      modifies this
      ensures View() == AcquireLock(old(View()), task)
    {
      if !isLocked {
        isLocked := true;
        holders := holders + [Holder(task, Handed)];
      } else {
        lockQueue := lockQueue + [task];
      }
    }

    method GiveUpLock(h: nat)
      requires h < |holders|
      modifies this
      ensures View() == ReleaseLock(old(View()), h)
    {
      holders := holders[..h] + holders[h + 1..];
      if lockQueue != [] {
        var next := lockQueue[0];
        lockQueue := lockQueue[1..];
        holders := holders + [Holder(next, Handed)];
      } else {
        isLocked := false;
      }
    }

    method Enqueue(msg: Message, now: int)
      modifies this
      ensures View() == QueueMessage(config, old(View()), msg, now)
    {
      if |offlineQueue| >= config.maxPendingMessages && offlineQueue != [] {
        ledger := ledger.(evicted := ledger.evicted + multiset{offlineQueue[0].msg});
        offlineQueue := offlineQueue[1..];
      }
      offlineQueue := offlineQueue + [Queued(msg, now)];
    }

    /** send() up to its first await; true when the promise rejects at once. */
    method BeginSend(msg: Message, now: int) returns (rejected: bool)
      modifies this
      ensures View() == SendNow(config, old(View()), msg, now)
      ensures rejected <==> old(isDestroyed || reconnectExhausted)
    {
      if isDestroyed || reconnectExhausted {
        ledger := ledger.(refused := ledger.refused + multiset{msg});
        return true;
      }
      if !IsOpen(link) {
        Enqueue(msg, now);
        return false;
      }
      TakeLock(SendTask(msg));
      return false;
    }

    method Send(msg: Message, now: int) returns (rejected: bool)
      requires Safe(config, View())
      modifies this
      ensures View() == StepSend(config, old(View()), msg, now) && Safe(config, View())
    {
      CallSafe(config, View(), msg, now);
      ledger := ledger.(passed := ledger.passed + multiset{msg});
      rejected := BeginSend(msg, now);
    }

    method FlushPendingMessages(now: int)
      modifies this
      ensures View() == FlushAll(config, old(View()).(offlineQueue := []), old(offlineQueue), now)
    {
      var pending := offlineQueue;
      offlineQueue := [];
      ghost var start := View();
      for i := 0 to |pending|
        invariant FlushAll(config, View(), pending[i..], now) == FlushAll(config, start, pending, now)
      {
        assert pending[i..][0] == pending[i] && pending[i..][1..] == pending[i + 1..];
        if Stale(config, pending[i], now) {
          ledger := ledger.(expired := ledger.expired + multiset{pending[i].msg});
          continue;
        }
        var _ := BeginSend(pending[i].msg, now);
      }
    }

    method OnOpen(now: int)
      requires Safe(config, View())
      modifies this
      ensures View() == StepOpened(config, old(View()), now) && Safe(config, View())
    {
      OpenedSafe(config, View(), now);
      reconnectAttempts := 0;
      reconnectExhausted := false;
      FlushPendingMessages(now);
    }

    method OnClose()
      requires Safe(config, View())
      modifies this
      ensures View() == StepLinkLost(config, old(View())) && Safe(config, View())
    {
      EventSafe(config, View());
      link := NoSocket;
      if !isDestroyed && reconnectEnabled && reconnectAttempts < config.maxReconnectAttempts {
        TakeLock(ReconnectTask);
      } else if !isDestroyed && reconnectEnabled {
        reconnectExhausted := true;
      }
    }

    /** False when the call throws because the relayer was destroyed. */
    method Connect() returns (ok: bool)
      requires Safe(config, View())
      modifies this
      ensures View() == StepConnect(old(View())) && Safe(config, View()) && ok == !old(isDestroyed)
    {
      if isDestroyed {
        return false;
      }
      reconnectEnabled := true;
      reconnectExhausted := false;
      reconnectAttempts := 0;
      if !connecting {
        connecting := true;
        TakeLock(ConnectTask);
      }
      return true;
    }

    method Disconnect()
      requires Safe(config, View())
      modifies this
      ensures View() == StepDisconnect(old(View())) && Safe(config, View())
    {
      reconnectEnabled, connecting, reconnectAttempts, reconnectExhausted, link := false, false, 0, false, NoSocket;
    }

    method Destroy()
      requires Safe(config, View())
      modifies this
      ensures View() == StepDestroy(config, old(View())) && Safe(config, View())
    {
      EventSafe(config, View());
      ledger := StepDestroy(config, View()).ledger;
      isDestroyed, reconnectEnabled, reconnectExhausted, connecting := true, false, true, false;
      offlineQueue := [];
      reconnectAttempts := config.maxReconnectAttempts;
      link := NoSocket;
      lockQueue, isLocked := [], false;
    }

    method OpenSocket(h: nat, opening: Opening)
      requires h < |holders|
      modifies this
      ensures View() == Establish(old(View()), h, opening)
    {
      if opening.Created? {
        link := Socket(false);
        holders := holders[h := holders[h].(phase := Establishing)];
      } else {
        GiveUpLock(h);
      }
    }

    /** A send() that was given the lock goes on; true when the message went out on the socket. */
    method ResumeSend(h: nat, sendOk: bool, now: int) returns (transmitted: bool)
      requires Safe(config, View()) && h < |holders| && holders[h].task.SendTask?
      modifies this
      ensures View() == StepResume(config, old(View()), h, NoConstructor, sendOk, now) && Safe(config, View())
      ensures transmitted <==> old(!isDestroyed && !reconnectExhausted && IsOpen(link)) && sendOk
    {
      ResumeSafe(config, View(), h, NoConstructor, sendOk, now);
      var msg := holders[h].task.msg;
      transmitted := false;
      if isDestroyed || reconnectExhausted {
        ledger := ledger.(refused := ledger.refused + multiset{msg});
      } else if !IsOpen(link) {
        Enqueue(msg, now);
      } else if sendOk {
        ledger := ledger.(transmitted := ledger.transmitted + multiset{msg});
        transmitted := true;
      } else {
        ledger := ledger.(refused := ledger.refused + multiset{msg});
      }
      GiveUpLock(h);
    }

    method ResumeConnect(h: nat, opening: Opening)
      requires Safe(config, View()) && h < |holders| && holders[h].task.ConnectTask?
      modifies this
      ensures View() == StepResume(config, old(View()), h, opening, false, 0) && Safe(config, View())
    {
      ResumeSafe(config, View(), h, opening, false, 0);
      if holders[h].phase.Handed? && !IsOpen(link) {
        OpenSocket(h, opening);
      } else {
        GiveUpLock(h);
      }
    }

    method ResumeReconnecting(h: nat, opening: Opening)
      requires Safe(config, View()) && h < |holders| && holders[h].task.ReconnectTask?
      modifies this
      ensures View() == StepResume(config, old(View()), h, opening, false, 0) && Safe(config, View())
    {
      ResumeSafe(config, View(), h, opening, false, 0);
      match holders[h].phase {
        case Handed =>
          if !isDestroyed && reconnectEnabled && reconnectAttempts < config.maxReconnectAttempts && !IsOpen(link) {
            reconnectAttempts := reconnectAttempts + 1;
            holders := holders[h := holders[h].(phase := Backoff)];
          } else {
            if !isDestroyed && reconnectEnabled && reconnectAttempts >= config.maxReconnectAttempts && !IsOpen(link) {
              reconnectExhausted := true;
            }
            GiveUpLock(h);
          }
        case Backoff =>
          if isDestroyed || !reconnectEnabled {
            GiveUpLock(h);
          } else {
            OpenSocket(h, opening);
          }
        case Establishing =>
          GiveUpLock(h);
      }
    }
  }
}
