/** The client object itself: what its task and its senders do to its fields, tied to the steps of the
    connection state machine. */
module WsClient {
  import opened WsHistory
  import opened WsLifecycle

  lemma AfterPingFlag(s: State, cfg: Config, t1: nat, t2: nat, t3: nat)
    ensures s.closeSent ==> AfterPing(s, cfg, t1, t2, t3) == s
  {
  }

  lemma AbortLeaves(s: State, cfg: Config)
    ensures Abort(s, cfg).checked == s.checked
  {
  }

  class Client {
    const cfg: Config
    var status: Status
    var run: bool
    var closeFrameSent: bool
    var transportOpen: bool
    var pingTick: nat
    var pingpongTick: nat
    var reconnectTick: nat
    var waitForPong: bool
    ghost var pc: Pc
    ghost var checked: set<nat>
    ghost var now: nat
    ghost var redirected: bool
    ghost var late: bool
    ghost var hist: seq<Event>

    ghost function View(): State
      reads this
    {
      State(status, run, closeFrameSent, transportOpen, redirected, late, pc, checked,
            now, pingTick, pingpongTick, reconnectTick, waitForPong, hist)
    }

    /** The object as esp_websocket_client_task has set it up before its loop. */
    constructor (cfg: Config)
      ensures this.cfg == cfg && Initial(View())
    {
      this.cfg := cfg;
      status, run, closeFrameSent, transportOpen := Init, true, false, false;
      pingTick, pingpongTick, reconnectTick, waitForPong := 0, 0, 0, false;
      pc, checked, now, redirected, late, hist := Head, {}, 0, false, false, [];
    }

    method Emit(ghost e: Event)
      modifies this`hist
      ensures hist == old(hist) + [e]
    {
      hist := hist + [e];
    }

    method CloseTransport()
      modifies this`hist, this`transportOpen
      ensures !transportOpen && hist == old(hist) + [TransportClose]
    {
      transportOpen := false;
      Emit(TransportClose);
    }

    /** esp_websocket_client_abort_connection; `tick` is what the clock reads. */
    method AbortConnection(tick: nat)
      requires tick == now
      modifies this
      ensures View() == Abort(old(View()), cfg)
    {
      if status == Closing || status == Unknow || status == WaitTimeout {
        return;
      }
      CloseTransport();
      if !cfg.autoReconnect {
        run := false;
        status := Unknow;
      } else {
        reconnectTick := tick;
        status := WaitTimeout;
      }
      Emit(EvDisconnected);
    }

    /** The connection is made. */
    method Establish()
      modifies this
      ensures View() == old(View()).(hist := old(hist) + [EvConnected], open := true, redirected := false,
                                     status := Connected, waitForPong := false, pc := JustConnected)
    {
      transportOpen := true;
      redirected := false;
      status := Connected;
      waitForPong := false;
      pc := JustConnected;
      Emit(EvConnected);
    }

    /** The connect has failed. */
    method FailConnect(tick: nat)
      requires tick == now
      modifies this
      ensures View() == Abort(old(View()), cfg).(pc := Release)
    {
      hide Abort;
      AbortConnection(tick);
      ghost var a := View();
      pc := Release;
      assert View() == a.(pc := Release);
    }

    method Redirect()
      modifies this
      ensures View() == old(View()).(open := true, redirected := true, pc := Release)
    {
      transportOpen := true;
      redirected := true;
      pc := Release;
    }

    method AnnounceConnect(ghost result: ConnectResult)
      modifies this`hist
      ensures hist == old(hist) + [BeforeConnect, Connect(result)]
    {
      Emit(BeforeConnect);
      Emit(Connect(result));
      assert hist == old(hist) + [BeforeConnect, Connect(result)];
    }

    /** The INIT arm, up to the CONNECTED event. */
    method InitArm(result: ConnectResult, tick: nat)
      requires tick == now && pc == Entering && status == Init
      modifies this
      ensures View() == AfterConnect(old(View()), cfg, result)
    {
      hide Abort;
      ghost var s := View();
      AnnounceConnect(result);
      ghost var c := View();
      assert c == s.(hist := s.hist + [BeforeConnect, Connect(result)]);
      if result == Failed {
        FailConnect(tick);
      } else if result == Redirected {
        Redirect();
      } else {
        Establish();
      }
    }

    /** The PING part of the CONNECTED arm. */
    method PingWhenDue(t1: nat, t2: nat, t3: nat)
      requires !closeFrameSent
      modifies this
      ensures View() == AfterPing(old(View()), cfg, t1, t2, t3)
    {
      if t1 - pingTick > cfg.pingIntervalSec * 1000 {
        pingTick := t2;
        Emit(PingSent(t2, t3));
        if !waitForPong && cfg.pongTimeoutSec != 0 {
          pingpongTick := t3;
          waitForPong := true;
        }
      }
    }

    /** The PONG part of the CONNECTED arm. */
    method CheckPong(tick: nat)
      requires tick == now
      modifies this
      ensures var s := old(View());
              View() == if s.waitForPong && tick - s.pingpongTick > cfg.pongTimeoutSec * 1000
                        then Abort(s.(hist := s.hist + [PongTimeout(tick)]), cfg) else s
    {
      hide Abort;
      if tick - pingpongTick > cfg.pongTimeoutSec * 1000 {
        if waitForPong {
          Emit(PongTimeout(tick));
          AbortConnection(tick);
        }
      }
    }

    /** The CONNECTED arm; the clock is read four times. */
    method ConnectedSwitchArm(t1: nat, t2: nat, t3: nat, t4: nat)
      requires pc == Entering && status == Connected && now <= t1 <= t2 <= t3 <= t4
      modifies this
      ensures View() == AfterConnectedArm(old(View()), cfg, t1, t2, t3, t4).(pc := Release)
    {
      hide Abort, AfterPing;
      ghost var s := View();
      AfterPingFlag(s, cfg, t1, t2, t3);
      if !closeFrameSent {
        PingWhenDue(t1, t2, t3);
        now := t4;
        ghost var p := View();
        assert p == AfterPing(s, cfg, t1, t2, t3).(now := t4);
        CheckPong(t4);
      } else {
        now := t4;
      }
      ghost var q := View();
      assert q == AfterConnectedArm(s, cfg, t1, t2, t3, t4);
      pc := Release;
      assert View() == q.(pc := Release);
    }

    /** The WAIT_TIMEOUT arm. */
    method WaitTimeoutSwitchArm(tick: nat)
      requires tick == now && pc == Entering && status == WaitTimeout
      modifies this
      ensures View() == Do(old(View()), cfg, WaitArm)
    {
      if tick - reconnectTick > cfg.waitTimeoutMs {
        status := Init;
        redirected := false;
        reconnectTick := tick;
      }
      pc := Release;
    }

    /** The CLOSING arm: the CLOSE frame of the peer is echoed unless one has been sent. */
    method ClosingSwitchArm() returns (sends: bool)
      requires pc == Entering && status == Closing
      modifies this
      ensures View() == Do(old(View()), cfg, ClosingArm) && sends == !old(closeFrameSent)
    {
      sends := !closeFrameSent;
      if sends {
        Emit(CloseEcho);
        closeFrameSent := true;
      }
      pc := Release;
    }

    /** The end of esp_websocket_client_recv. */
    method EndOfReceive(kind: FrameKind)
      requires pc.Got? && pc.kind == kind
      modifies this
      ensures View() == AfterFrame(old(View()))
    {
      if kind == PongFrame {
        waitForPong := false;
        Emit(PongIn);
      } else if kind == CloseFrame {
        late := status != Connected;
        status := Closing;
        Emit(CloseIn);
      }
      pc := AfterRecv(pc.first, true);
    }

    /** The end of the close handshake, with or without a reconnect; true if the loop is left. */
    method CloseHandshakeDone(tick: nat) returns (leaves: bool)
      requires tick == now && pc == AwaitingClose
      modifies this
      ensures leaves == !cfg.closeReconnect
      ensures View() == AfterHandshake(old(View()), cfg.closeReconnect)
    {
      leaves := !cfg.closeReconnect;
      if cfg.closeReconnect {
        status := WaitTimeout;
        CloseTransport();
        Emit(EvClosed);
        assert hist == old(hist) + [TransportClose, EvClosed];
        reconnectTick := tick;
        closeFrameSent := false;
        pc := Head;
      } else {
        run := false;
        status := Unknow;
        Emit(EvClosed);
        pc := Exiting;
      }
    }

    /** After the loop. */
    method Finish()
      requires pc == Exiting
      modifies this
      ensures View() == old(View()).(hist := old(hist) + [EvFinish, TransportClose], open := false, status := Unknow, pc := Done)
    {
      Emit(EvFinish);
      CloseTransport();
      assert hist == old(hist) + [EvFinish, TransportClose];
      status := Unknow;
      pc := Done;
    }

    /** The error path of a send, by a sender that holds the lock. */
    method SendError(ghost tid: nat, tick: nat)
      requires tick == now && tid in checked && !Holds(pc)
      modifies this
      ensures View() == Abort(old(View()), cfg).(checked := old(checked) - {tid})
    {
      hide Abort;
      AbortConnection(tick);
      AbortLeaves(old(View()), cfg);
      checked := checked - {tid};
    }
  }
}
