/** The connection state machine of the WebSocket client: one client task, any number of tasks that
    send, and the callers of stop and close, in the build without a separate transmit lock. Whatever
    runs with the lock held and calls nobody back is one step. */
module WsLifecycle {
  import opened Options
  import opened WsHistory

  datatype Config = Config(autoReconnect: bool, closeReconnect: bool, pingIntervalSec: nat, pongTimeoutSec: nat, waitTimeoutMs: nat)

  datatype Status = Init | Connected | WaitTimeout | Closing | Unknow

  datatype FrameKind = Data | PingFrame | PongFrame | CloseFrame

  /** Where the client task is. `first` marks the receive that follows the handshake directly. */
  datatype Pc =
    | Head
    | Entering
    | JustConnected
    | Receiving(first: bool)
    | Got(first: bool, kind: FrameKind)
    | Reacquiring
    | Release
    | Tail
    | Polling
    | AwaitingClose
    | Exiting
    | Finishing
    | Done

  datatype State = State(
    status: Status, run: bool, closeSent: bool,
    open: bool,          // the transport is connected
    redirected: bool,    // Init because of a redirect, not because of the reconnect timer
    late: bool,          // Closing because of a CLOSE frame although the connection had been aborted
    pc: Pc,
    checked: set<nat>,   // senders that have seen the client connected and now want the lock
    now: nat, pingTick: nat, pingpongTick: nat, reconnectTick: nat, waitForPong: bool,
    hist: seq<Event>)

  datatype Step =
    | Tick(ms: nat)
    | Stop
    | MarkCloseSent
    | CheckConnected(tid: nat)
    | SendDone(tid: nat)
    | SendFails(tid: nat)
    | Enter
    | LeaveLoop
    | DoConnect(result: ConnectResult)
    | ConnectedArm(t1: nat, t2: nat, t3: nat, t4: nat)
    | WaitArm
    | ClosingArm
    | IdleArm
    | HandlerSendFails
    | Peek(data: bool)
    | ReadFails
    | ReadNothing
    | ReadFrame(kind: FrameKind)
    | FrameDone
    | Reacquire
    | GiveLock
    | LookAtStatus
    | PollFails
    | PollData
    | PollNothing
    | CloseAndReconnect
    | CloseAndStop
    | FinishClose
    | FinishStatus

  /** Whether the task holds the lock. */
  predicate Holds(pc: Pc) {
    pc.JustConnected? || pc.Receiving? || pc.Got? || pc.Release?
  }

  /** esp_websocket_client_abort_connection. */
  function Abort(s: State, cfg: Config): State {
    if s.status.Unknow? || s.status.Closing? || s.status.WaitTimeout? then s
    else if !cfg.autoReconnect then
      s.(open := false, run := false, status := Unknow, hist := s.hist + [TransportClose, EvDisconnected])
    else
      s.(open := false, reconnectTick := s.now, status := WaitTimeout, hist := s.hist + [TransportClose, EvDisconnected])
  }

  predicate PingDue(s: State, cfg: Config, t: nat) {
    !s.closeSent && t - s.pingTick > cfg.pingIntervalSec * 1000
  }

  /** The state after the ping part of the CONNECTED arm; the clock is read at t1, t2 and t3. */
  function AfterPing(s: State, cfg: Config, t1: nat, t2: nat, t3: nat): State {
    if !PingDue(s, cfg, t1) then s
    else
      var p := s.(pingTick := t2, hist := s.hist + [PingSent(t2, t3)]);
      if !s.waitForPong && cfg.pongTimeoutSec > 0 then p.(pingpongTick := t3, waitForPong := true) else p
  }

  function AfterConnectedArm(s: State, cfg: Config, t1: nat, t2: nat, t3: nat, t4: nat): State {
    var p := AfterPing(s, cfg, t1, t2, t3).(now := t4);
    if !s.closeSent && p.waitForPong && t4 - p.pingpongTick > cfg.pongTimeoutSec * 1000 then
      Abort(p.(hist := p.hist + [PongTimeout(t4)]), cfg)
    else p
  }

  function AfterConnect(s: State, cfg: Config, result: ConnectResult): State {
    var h := s.hist + [BeforeConnect, Connect(result)];
    match result
    case Failed => Abort(s.(hist := h), cfg).(pc := Release)
    case Redirected => s.(hist := h, open := true, redirected := true, pc := Release)
    case Established =>
      s.(hist := h + [EvConnected], open := true, redirected := false, status := Connected, waitForPong := false,
         pc := JustConnected)
  }

  /** Where the task goes from the end of a receive: that of the main loop gives the lock back. */
  function AfterRecv(first: bool, ok: bool): Pc {
    if !first then Head else if ok then Reacquiring else Release
  }

  /** What a receive does after its last DATA event. */
  function AfterFrame(s: State): State
    requires s.pc.Got?
  {
    var t := s.(pc := AfterRecv(s.pc.first, true));
    if s.pc.kind == PongFrame then t.(waitForPong := false, hist := s.hist + [PongIn])
    else if s.pc.kind == CloseFrame then
      t.(status := Closing, late := s.status != Connected, hist := s.hist + [CloseIn])
    else t
  }

  /** The CLOSING arm: the CLOSE frame is echoed unless one has been sent. */
  function AfterClosingArm(s: State): State {
    s.(hist := if s.closeSent then s.hist else s.hist + [CloseEcho], closeSent := true, pc := Release)
  }

  /** The end of the close handshake. */
  function AfterHandshake(s: State, reconnect: bool): State {
    if reconnect then
      s.(status := WaitTimeout, open := false, hist := s.hist + [TransportClose, EvClosed], reconnectTick := s.now,
         closeSent := false, pc := Head)
    else s.(run := false, status := Unknow, hist := s.hist + [EvClosed], pc := Exiting)
  }

  predicate Enabled(s: State, cfg: Config, step: Step) {
    match step
    case Tick(_) => true
    case Stop => true
    case MarkCloseSent => true
    case CheckConnected(_) => s.status == Connected
    case SendDone(tid) => tid in s.checked
    case SendFails(tid) => tid in s.checked && !Holds(s.pc)
    case Enter => s.pc == Head && s.run
    case LeaveLoop => s.pc == Head && !s.run
    case DoConnect(_) => s.pc == Entering && s.status == Init
    case ConnectedArm(t1, t2, t3, t4) => s.pc == Entering && s.status == Connected && s.now <= t1 <= t2 <= t3 <= t4
    case WaitArm => s.pc == Entering && s.status == WaitTimeout
    case ClosingArm => s.pc == Entering && s.status == Closing
    case IdleArm => s.pc == Entering && s.status == Unknow
    case HandlerSendFails => (s.pc.JustConnected? || s.pc.Got?) && s.status == Connected
    case Peek(_) => s.pc == JustConnected
    case ReadFails => s.pc.Receiving? || s.pc.Got?
    case ReadNothing => s.pc.Receiving? && s.open
    case ReadFrame(_) => s.pc.Receiving? && s.open
    case FrameDone => s.pc.Got?
    case Reacquire => s.pc == Reacquiring
    case GiveLock => s.pc == Release
    case LookAtStatus => s.pc == Tail
    case PollFails => s.pc == Polling
    case PollData => s.pc == Polling
    case PollNothing => s.pc == Polling
    case CloseAndReconnect => s.pc == AwaitingClose && cfg.closeReconnect
    case CloseAndStop => s.pc == AwaitingClose && !cfg.closeReconnect
    case FinishClose => s.pc == Exiting
    case FinishStatus => s.pc == Finishing
  }

  function Do(s: State, cfg: Config, step: Step): State
    requires Enabled(s, cfg, step)
  {
    match step
    case Tick(ms) => s.(now := s.now + ms)
    case Stop => s.(run := false)
    case MarkCloseSent => s.(closeSent := true)
    case CheckConnected(tid) => s.(checked := s.checked + {tid})
    case SendDone(tid) => s.(checked := s.checked - {tid})
    case SendFails(tid) => Abort(s, cfg).(checked := s.checked - {tid})
    case Enter => s.(pc := Entering)
    case LeaveLoop => s.(pc := Exiting)
    case DoConnect(result) => AfterConnect(s, cfg, result)
    case ConnectedArm(t1, t2, t3, t4) => AfterConnectedArm(s, cfg, t1, t2, t3, t4).(pc := Release)
    case WaitArm =>
      if s.now - s.reconnectTick > cfg.waitTimeoutMs then
        s.(status := Init, redirected := false, reconnectTick := s.now, pc := Release)
      else s.(pc := Release)
    case ClosingArm => AfterClosingArm(s)
    case IdleArm => s.(pc := Release)
    case HandlerSendFails => Abort(s, cfg)
    case Peek(data) => s.(pc := if data then Receiving(true) else Release)
    case ReadFails => Abort(s, cfg).(pc := AfterRecv(s.pc.first, false))
    case ReadNothing => s.(pc := AfterRecv(s.pc.first, true))
    case ReadFrame(kind) => s.(pc := Got(s.pc.first, kind))
    case FrameDone => AfterFrame(s)
    case Reacquire => s.(pc := Release)
    case GiveLock => s.(pc := Tail)
    case LookAtStatus =>
      s.(pc := if s.status == Connected then Polling
               else if s.status == Closing && s.closeSent then AwaitingClose
               else Head)
    case PollFails => Abort(s, cfg).(pc := Head)
    case PollData => s.(pc := Receiving(false))
    case PollNothing => s.(pc := Head)
    case CloseAndReconnect => AfterHandshake(s, true)
    case CloseAndStop => AfterHandshake(s, false)
    case FinishClose => s.(hist := s.hist + [EvFinish, TransportClose], open := false, pc := Finishing)
    case FinishStatus => s.(status := Unknow, pc := Done)
  }

  // The invariant.

  predicate Over(pc: Pc) {
    pc == Finishing || pc == Done
  }

  /** How far the current attempt is, by the status. */
  predicate AttemptInv(s: State) {
    var h := s.hist;
    match s.status
    case Init =>
      if s.redirected then LastConnect(h) == Some(Redirected) && Ends(h) == 0 && (Closes(h) == 0 || Over(s.pc))
      else LastConnect(h).Some? ==> Ends(h) == 1 && (Closes(h) == 1 || Over(s.pc))
    case Connected => LastConnect(h) == Some(Established) && Ends(h) == 0 && (Closes(h) == 0 || Over(s.pc))
    case Closing =>
      var n := if s.late then 1 else 0;
      LastConnect(h) == Some(Established) && Ends(h) == n && (Closes(h) == n || Over(s.pc))
    case WaitTimeout => LastConnect(h).Some? && Ends(h) == 1 && (Closes(h) == 1 || Over(s.pc))
    case Unknow => !s.run || s.pc == Done
  }

  predicate ConnectedInv(s: State) {
    var e := EndsSinceConnected(s.hist);
    && (e.Some? && (s.status == Init || s.status == WaitTimeout) ==> e.value >= 1)
    && (s.checked != {} || s.status == Connected || s.status == Closing ==> e.Some?)
    && (e.Some? ==> LastConnect(s.hist).Some?)
  }

  predicate InUse(pc: Pc) {
    pc.JustConnected? || pc.Receiving? || pc.Got? || pc.Polling?
  }

  /** Between the handshake and the end of a receive the status is CONNECTED until somebody aborts. */
  predicate PcInv(s: State) {
    && (InUse(s.pc) ==>
          && LastConnect(s.hist) == Some(Established) && EndsSinceConnected(s.hist).Some?
          && (s.status == Connected ||
              ((s.status == WaitTimeout || s.status == Unknow) && Ends(s.hist) == 1 && Closes(s.hist) == 1)))
    && (InUse(s.pc) && s.status == Unknow ==> !s.run)
    && (s.pc == AwaitingClose ==> s.status == Closing)
    && (s.open && (s.status == WaitTimeout || s.status == Unknow) ==> s.pc == Exiting)
    && (Over(s.pc) ==> !s.open)
  }

  ghost predicate Inv(s: State) {
    Orderly(s.hist) && AttemptInv(s) && ConnectedInv(s) && PcInv(s)
  }

  /** A sender that saw an earlier connection gets the lock after the reconnect timer has run out and
      before the next connect, and its write fails. */
  predicate StaleSend(s: State, step: Step) {
    step.SendFails? && s.status == Init && !s.redirected
  }

  /** The close handshake ends a connection that a failing send of an event handler had aborted while
      the CLOSE frame was being reported. */
  predicate LateClose(s: State, step: Step) {
    (step == CloseAndReconnect || step == CloseAndStop) && s.late
  }

  predicate Faulty(s: State, step: Step) {
    StaleSend(s, step) || LateClose(s, step)
  }

  lemma AbortKeeps(s: State, cfg: Config)
    requires Orderly(s.hist) && AttemptInv(s) && ConnectedInv(s)
    requires s.status == Connected || (s.status == Init && s.redirected)
    ensures var a := Abort(s, cfg);
            && Orderly(a.hist) && AttemptInv(a) && ConnectedInv(a)
            && !a.open && (a.status == WaitTimeout || a.status == Unknow)
            && LastConnect(a.hist) == LastConnect(s.hist) && Ends(a.hist) == 1 && (Closes(a.hist) == 1 || Over(s.pc))
            && (EndsSinceConnected(s.hist).Some? ==> EndsSinceConnected(a.hist).Some?)
  {
    hide Ends, Closes, LastConnect, EndsSinceConnected, Orderly, FirstPing;
    OneMore(s.hist, TransportClose);
    OneMore(s.hist + [TransportClose], EvDisconnected);
    assert s.hist + [TransportClose] + [EvDisconnected] == s.hist + [TransportClose, EvDisconnected];
  }

  /** The part of the invariant that the end of a transport connect needs. */
  lemma ConnectBegins(s: State, result: ConnectResult)
    requires Inv(s) && s.status == Init && !Over(s.pc)
    ensures var h := s.hist + [BeforeConnect, Connect(result)];
            && Orderly(h) && Ends(h) == 0 && Closes(h) == 0 && LastConnect(h) == Some(result)
            && EndsSinceConnected(h) == EndsSinceConnected(s.hist) != Some(0)
  {
    hide Ends, Closes, LastConnect, EndsSinceConnected, Orderly, FirstPing;
    OneMore(s.hist, BeforeConnect);
    OneMore(s.hist + [BeforeConnect], Connect(result));
    assert s.hist + [BeforeConnect] + [Connect(result)] == s.hist + [BeforeConnect, Connect(result)];
  }

  lemma EstablishedKeeps(s: State, cfg: Config)
    requires Inv(s) && s.pc == Entering && s.status == Init
    ensures Inv(AfterConnect(s, cfg, Established))
  {
    hide Ends, Closes, LastConnect, EndsSinceConnected, Orderly, FirstPing, Abort;
    ConnectBegins(s, Established);
    OneMore(s.hist + [BeforeConnect, Connect(Established)], EvConnected);
  }

  lemma FailedKeeps(s: State, cfg: Config)
    requires Inv(s) && s.pc == Entering && s.status == Init
    ensures Inv(AfterConnect(s, cfg, Failed))
  {
    hide Ends, Closes, LastConnect, EndsSinceConnected, Orderly, FirstPing;
    var h := s.hist + [BeforeConnect, Connect(Failed)];
    ConnectBegins(s, Failed);
    OneMore(h, TransportClose);
    OneMore(h + [TransportClose], EvDisconnected);
    assert h + [TransportClose] + [EvDisconnected] == h + [TransportClose, EvDisconnected];
  }

  lemma RedirectedKeeps(s: State, cfg: Config)
    requires Inv(s) && s.pc == Entering && s.status == Init
    ensures Inv(AfterConnect(s, cfg, Redirected))
  {
    hide Ends, Closes, LastConnect, EndsSinceConnected, Orderly, FirstPing, Abort;
    ConnectBegins(s, Redirected);
  }

  lemma ConnectKeeps(s: State, cfg: Config, result: ConnectResult)
    requires Inv(s) && s.pc == Entering && s.status == Init
    ensures Inv(AfterConnect(s, cfg, result))
  {
    hide Inv, AfterConnect;
    match result
    case Failed => FailedKeeps(s, cfg);
    case Redirected => RedirectedKeeps(s, cfg);
    case Established => EstablishedKeeps(s, cfg);
  }

  /** Events that no clause of the orderliness is about. */
  lemma NeutralEvent(s: State, e: Event)
    requires Inv(s) && (e.PingSent? || e == PongIn || e.PongTimeout? || e == EvFinish || e == CloseIn || e == CloseEcho)
    ensures Inv(s.(hist := s.hist + [e]))
  {
    hide Ends, Closes, LastConnect, EndsSinceConnected, Orderly, FirstPing;
    OneMore(s.hist, e);
  }

  /** No clause is about the clock readings either. */
  lemma StampsFree(s: State, pingTick: nat, pingpongTick: nat, waitForPong: bool)
    requires Inv(s)
    ensures Inv(s.(pingTick := pingTick, pingpongTick := pingpongTick, waitForPong := waitForPong))
  {
    hide Ends, Closes, LastConnect, EndsSinceConnected, Orderly, FirstPing, MayFollow;
  }

  lemma PingKeeps(s: State, cfg: Config, t1: nat, t2: nat, t3: nat)
    requires Inv(s)
    ensures Inv(AfterPing(s, cfg, t1, t2, t3))
    ensures AfterPing(s, cfg, t1, t2, t3).status == s.status && AfterPing(s, cfg, t1, t2, t3).pc == s.pc
  {
    hide Inv, PingDue;
    var p := s.(hist := s.hist + [PingSent(t2, t3)]);
    NeutralEvent(s, PingSent(t2, t3));
    StampsFree(p, t2, p.pingpongTick, p.waitForPong);
    StampsFree(p, t2, t3, true);
  }

  lemma PongTimeoutKeeps(s: State, cfg: Config, t4: nat)
    requires Inv(s) && s.status == Connected && s.pc == Entering
    ensures Inv(Abort(s.(hist := s.hist + [PongTimeout(t4)]), cfg).(pc := Release))
  {
    hide Ends, Closes, LastConnect, EndsSinceConnected, Orderly, FirstPing;
    NeutralEvent(s, PongTimeout(t4));
    AbortKeeps(s.(hist := s.hist + [PongTimeout(t4)]), cfg);
  }

  lemma PingArmKeeps(s: State, cfg: Config, t1: nat, t2: nat, t3: nat, t4: nat)
    requires Inv(s) && s.pc == Entering && s.status == Connected
    ensures Inv(AfterConnectedArm(s, cfg, t1, t2, t3, t4).(pc := Release))
  {
    hide Ends, Closes, LastConnect, EndsSinceConnected, Orderly, FirstPing, Abort, AfterPing;
    PingKeeps(s, cfg, t1, t2, t3);
    var p := AfterPing(s, cfg, t1, t2, t3).(now := t4);
    assert Inv(p) && Inv(p.(pc := Release));
    PongTimeoutKeeps(p, cfg, t4);
  }

  lemma ClosedKeeps(s: State, cfg: Config, step: Step)
    requires Inv(s) && Enabled(s, cfg, step) && !s.late && (step == CloseAndReconnect || step == CloseAndStop)
    ensures Inv(Do(s, cfg, step))
  {
    hide Ends, Closes, LastConnect, EndsSinceConnected, Orderly, FirstPing;
    OneMore(s.hist, EvClosed);
    OneMore(s.hist, TransportClose);
    OneMore(s.hist + [TransportClose], EvClosed);
    assert s.hist + [TransportClose] + [EvClosed] == s.hist + [TransportClose, EvClosed];
  }

  lemma FinishKeeps(s: State, cfg: Config)
    requires Inv(s) && s.pc == Exiting
    ensures Inv(Do(s, cfg, FinishClose))
  {
    hide Ends, Closes, LastConnect, EndsSinceConnected, Orderly, FirstPing;
    OneMore(s.hist, EvFinish);
    OneMore(s.hist + [EvFinish], TransportClose);
    assert s.hist + [EvFinish] + [TransportClose] == s.hist + [EvFinish, TransportClose];
  }

  /** An abort where one may happen, whatever it finds. */
  lemma AbortAnywhere(s: State, cfg: Config)
    requires Inv(s) && !(s.status == Init && !s.redirected)
    ensures Inv(Abort(s, cfg))
    ensures s.status == Connected ==> Abort(s, cfg).status == WaitTimeout || Abort(s, cfg).status == Unknow
    ensures s.status != Connected && s.status != Init ==> Abort(s, cfg) == s
  {
    hide Ends, Closes, LastConnect, EndsSinceConnected, Orderly, FirstPing;
    if s.status == Connected || s.status == Init {
      AbortKeeps(s, cfg);
    }
  }

  lemma CheckedFree(s: State, checked: set<nat>)
    requires Inv(s) && checked <= s.checked
    ensures Inv(s.(checked := checked))
  {
    hide Ends, Closes, LastConnect, EndsSinceConnected, Orderly, FirstPing;
  }

  lemma UseStatus(s: State)
    requires Inv(s) && InUse(s.pc)
    ensures s.status != Init && !Over(s.pc) && s.pc != Exiting
  {
  }

  lemma AbortFrame(s: State, cfg: Config)
    ensures Abort(s, cfg).pc == s.pc && Abort(s, cfg).checked == s.checked
  {
  }

  lemma AbortStepKeeps(s: State, cfg: Config, step: Step)
    requires Inv(s) && Enabled(s, cfg, step) && !StaleSend(s, step)
    requires step.SendFails? || step == HandlerSendFails || step == ReadFails || step == PollFails
    ensures Inv(Do(s, cfg, step))
  {
    hide Inv, AfterConnect, AfterConnectedArm, AfterFrame, AfterHandshake, Abort;
    AbortFrame(s, cfg);
    if step.SendFails? {
      AbortAnywhere(s, cfg);
      CheckedFree(Abort(s, cfg), s.checked - {step.tid});
    } else {
      UseStatus(s);
      AbortAnywhere(s, cfg);
      var t := Do(s, cfg, step);
      assert t == Abort(s, cfg).(pc := t.pc);
      if step != HandlerSendFails { PcFree(Abort(s, cfg), t.pc); }
    }
  }

  /** A CLOSE frame is taken in. */
  lemma CloseInKeeps(s: State)
    requires Inv(s) && s.pc.Got? && s.pc.kind == CloseFrame
    ensures Inv(AfterFrame(s))
  {
    hide Ends, Closes, LastConnect, EndsSinceConnected, Orderly, FirstPing, MayFollow;
    NeutralEvent(s, CloseIn);
    var t := s.(hist := s.hist + [CloseIn]);
    assert AfterFrame(s) == t.(pc := AfterRecv(s.pc.first, true), status := Closing, late := s.status != Connected);
    assert Orderly(t.hist);
  }

  /** The end of a receive. */
  lemma FrameDoneKeeps(s: State)
    requires Inv(s) && s.pc.Got?
    ensures Inv(AfterFrame(s))
  {
    hide Ends, Closes, LastConnect, EndsSinceConnected, Orderly, FirstPing, MayFollow;
    if s.pc.kind == CloseFrame {
      CloseInKeeps(s);
    } else {
      var t := s.(pc := AfterRecv(s.pc.first, true));
      assert Inv(t);
      if s.pc.kind == PongFrame {
        NeutralEvent(t, PongIn);
        assert Inv(t.(waitForPong := false, hist := s.hist + [PongIn]));
      }
    }
  }

  /** The steps of the client task that leave at most an echo: at the head of the loop, in a switch arm, or last. */
  predicate IsArm(step: Step) {
    step == Enter || step == LeaveLoop || step == WaitArm || step == ClosingArm || step == IdleArm || step == FinishStatus
  }

  /** Moving on, without entering the use of a connection that is not established. */
  lemma PcFree(s: State, pc: Pc)
    requires Inv(s) && !Over(s.pc) && !Over(pc) && s.pc != Exiting
    requires InUse(pc) ==> InUse(s.pc) || s.status == Connected
    requires pc == AwaitingClose ==> s.status == Closing
    ensures Inv(s.(pc := pc))
  {
    hide Ends, Closes, LastConnect, EndsSinceConnected, Orderly, FirstPing;
  }

  lemma CloseSentFree(s: State)
    requires Inv(s)
    ensures Inv(s.(closeSent := true))
  {
    hide Ends, Closes, LastConnect, EndsSinceConnected, Orderly, FirstPing;
  }

  lemma ReconnectTimerKeeps(s: State)
    requires Inv(s) && s.pc == Entering && s.status == WaitTimeout
    ensures Inv(s.(status := Init, redirected := false, reconnectTick := s.now, pc := Release))
  {
    hide Ends, Closes, LastConnect, EndsSinceConnected, Orderly, FirstPing;
  }

  lemma FinishStatusKeeps(s: State)
    requires Inv(s) && s.pc == Finishing
    ensures Inv(s.(status := Unknow, pc := Done))
  {
    hide Ends, Closes, LastConnect, EndsSinceConnected, Orderly, FirstPing;
  }

  lemma ArmKeeps(s: State, cfg: Config, step: Step)
    requires Inv(s) && Enabled(s, cfg, step) && IsArm(step)
    ensures Inv(Do(s, cfg, step))
  {
    hide Inv, AfterConnect, AfterConnectedArm, AfterFrame, AfterHandshake, Abort;
    if step == ClosingArm {
      NeutralEvent(s, CloseEcho);
      var e := s.(hist := if s.closeSent then s.hist else s.hist + [CloseEcho]);
      CloseSentFree(e);
      PcFree(e.(closeSent := true), Release);
    } else if step == FinishStatus {
      FinishStatusKeeps(s);
    } else {
      HeadKeeps(s, cfg, step);
    }
  }

  lemma HeadKeeps(s: State, cfg: Config, step: Step)
    requires Inv(s) && Enabled(s, cfg, step)
    requires step == Enter || step == LeaveLoop || step == WaitArm || step == IdleArm
    ensures Inv(Do(s, cfg, step))
  {
    hide Inv, AfterConnect, AfterConnectedArm, AfterFrame, AfterHandshake, Abort;
    if step == Enter {
      PcFree(s, Entering);
    } else if step == LeaveLoop {
      PcFree(s, Exiting);
    } else {
      PcFree(s, Release);
      if step == WaitArm { ReconnectTimerKeeps(s); }
    }
  }

  /** The same, between the arm and the head. */
  predicate IsQuiet(step: Step) {
    step == ReadNothing || step == Reacquire || step == GiveLock || step == LookAtStatus ||
    step == PollData || step == PollNothing || step.Peek? || step.ReadFrame?
  }

  /** These only move the task on. */
  lemma QuietDo(s: State, cfg: Config, step: Step)
    requires Enabled(s, cfg, step) && IsQuiet(step)
    ensures Do(s, cfg, step) == s.(pc := Do(s, cfg, step).pc)
  {
    hide AfterConnect, AfterConnectedArm, AfterHandshake, AfterRecv, AfterFrame, AfterClosingArm, Abort, Holds;
    match step
    case ReadNothing =>
    case Reacquire =>
    case GiveLock =>
    case LookAtStatus =>
    case PollData =>
    case PollNothing =>
    case Peek(_) =>
    case ReadFrame(_) =>
  }

  lemma QuietKeeps(s: State, cfg: Config, step: Step)
    requires Inv(s) && Enabled(s, cfg, step) && IsQuiet(step)
    ensures Inv(Do(s, cfg, step))
  {
    hide Inv, AfterConnect, AfterConnectedArm, AfterFrame, AfterHandshake, Abort;
    if step == LookAtStatus {
      PcFree(s, if s.status == Connected then Polling else if s.status == Closing && s.closeSent then AwaitingClose else Head);
    } else if step.Peek? || step == ReadNothing || step.ReadFrame? {
      ReadKeeps(s, cfg, step);
    } else {
      PcFree(s, if step == PollData then Receiving(false) else if step == PollNothing then Head
                else if step == GiveLock then Tail else Release);
    }
  }

  lemma ReadKeeps(s: State, cfg: Config, step: Step)
    requires Inv(s) && Enabled(s, cfg, step) && (step.Peek? || step == ReadNothing || step.ReadFrame?)
    ensures Inv(Do(s, cfg, step))
  {
    hide Inv, AfterConnect, AfterConnectedArm, AfterFrame, AfterHandshake, Abort;
    PcFree(s, if step.Peek? then (if step.data then Receiving(true) else Release)
              else if step == ReadNothing then AfterRecv(s.pc.first, true) else Got(s.pc.first, step.kind));
  }

  /** The steps of others that leave no event. */
  lemma OutsideKeeps(s: State, cfg: Config, step: Step)
    requires Inv(s) && Enabled(s, cfg, step)
    requires step.Tick? || step == Stop || step == MarkCloseSent || step.CheckConnected? || step.SendDone?
    ensures Inv(Do(s, cfg, step))
  {
    hide Ends, Closes, LastConnect, EndsSinceConnected, Orderly, FirstPing, AfterConnect, AfterConnectedArm, AfterFrame, Abort;
  }

  lemma StepKeeps(s: State, cfg: Config, step: Step)
    requires Inv(s) && Enabled(s, cfg, step) && !Faulty(s, step)
    ensures Inv(Do(s, cfg, step))
  {
    hide Inv, AfterConnect, AfterConnectedArm, AfterFrame, Abort;
    match step {
      case DoConnect(result) => ConnectKeeps(s, cfg, result);
      case ConnectedArm(t1, t2, t3, t4) => PingArmKeeps(s, cfg, t1, t2, t3, t4);
      case CloseAndReconnect => ClosedKeeps(s, cfg, step);
      case CloseAndStop => ClosedKeeps(s, cfg, step);
      case FinishClose => FinishKeeps(s, cfg);
      case FrameDone => FrameDoneKeeps(s);
      case SendFails(_) => AbortStepKeeps(s, cfg, step);
      case HandlerSendFails => AbortStepKeeps(s, cfg, step);
      case ReadFails => AbortStepKeeps(s, cfg, step);
      case PollFails => AbortStepKeeps(s, cfg, step);
      case _ => if IsArm(step) { ArmKeeps(s, cfg, step); } else if IsQuiet(step) { QuietKeeps(s, cfg, step); } else { OutsideKeeps(s, cfg, step); }
    }
  }

  /** A second end event in one attempt. */
  lemma EndedTwice(h: seq<Event>, e: Event)
    requires Ends(h) > 0 && IsEnd(e)
    ensures !Orderly(h + [e]) && !Orderly(h + [TransportClose, e])
  {
    hide Ends, Closes, LastConnect, EndsSinceConnected, Orderly, FirstPing;
    OneMore(h, e);
    OneMore(h, TransportClose);
    OneMore(h + [TransportClose], e);
    assert h + [TransportClose] + [e] == h + [TransportClose, e];
  }

  /** A faulty step ends an attempt that had ended already. */
  lemma FaultBreaks(s: State, cfg: Config, step: Step)
    requires Inv(s) && Enabled(s, cfg, step) && Faulty(s, step)
    ensures !Orderly(Do(s, cfg, step).hist)
  {
    hide Closes, LastConnect, EndsSinceConnected, Orderly, FirstPing, Ends, AfterConnect, AfterConnectedArm, AfterFrame;
    EndedTwice(s.hist, if step.SendFails? then EvDisconnected else EvClosed);
  }

  lemma AbortGrows(s: State, cfg: Config)
    ensures s.hist <= Abort(s, cfg).hist
  {
  }

  lemma ArmGrows(s: State, cfg: Config, t1: nat, t2: nat, t3: nat, t4: nat)
    ensures s.hist <= AfterConnectedArm(s, cfg, t1, t2, t3, t4).hist
  {
    hide Abort;
    var p := AfterPing(s, cfg, t1, t2, t3);
    var q := p.(now := t4, hist := p.hist + [PongTimeout(t4)]);
    assert s.hist <= p.hist <= q.hist;
    AbortGrows(q, cfg);
  }

  lemma ConnectGrows(s: State, cfg: Config, result: ConnectResult)
    ensures s.hist <= AfterConnect(s, cfg, result).hist
  {
    hide Abort;
    AbortGrows(s.(hist := s.hist + [BeforeConnect, Connect(result)]), cfg);
  }

  lemma CloseGrows(s: State, cfg: Config, step: Step)
    requires Enabled(s, cfg, step) && (step == CloseAndReconnect || step == CloseAndStop || step == FinishClose)
    ensures s.hist <= Do(s, cfg, step).hist
  {
    hide AfterConnect, AfterConnectedArm, AfterFrame, Abort;
  }

  lemma FrameGrows(s: State)
    requires s.pc.Got?
    ensures s.hist <= AfterFrame(s).hist
  {
  }

  lemma HistoryGrows(s: State, cfg: Config, step: Step)
    requires Enabled(s, cfg, step)
    ensures s.hist <= Do(s, cfg, step).hist
  {
    hide AfterConnect, AfterConnectedArm, AfterFrame, AfterHandshake, AfterRecv, Abort, PingDue;
    match step {
      case ConnectedArm(t1, t2, t3, t4) => ArmGrows(s, cfg, t1, t2, t3, t4);
      case DoConnect(result) => ConnectGrows(s, cfg, result);
      case FrameDone => FrameGrows(s);
      case SendFails(_) => AbortGrows(s, cfg);
      case HandlerSendFails => AbortGrows(s, cfg);
      case ReadFails => AbortGrows(s, cfg);
      case PollFails => AbortGrows(s, cfg);
      case CloseAndReconnect => CloseGrows(s, cfg, step);
      case CloseAndStop => CloseGrows(s, cfg, step);
      case FinishClose => CloseGrows(s, cfg, step);
      case _ =>
    }
  }

  // Runs.

  /** The task at the head of its loop for the first time; the stamps and the PONG flag are left over
      from before. */
  predicate Initial(s: State) {
    && s.status == Init && s.run && !s.closeSent && !s.open && !s.redirected && !s.late
    && s.pc == Head && s.checked == {} && s.hist == []
  }

  /** The state after the steps, if each was enabled when its turn came. */
  function Exec(s: State, cfg: Config, steps: seq<Step>): Option<State> {
    if steps == [] then Some(s)
    else
      var before, step := Exec(s, cfg, steps[..|steps| - 1]), steps[|steps| - 1];
      if before.Some? && Enabled(before.value, cfg, step) then Some(Do(before.value, cfg, step)) else None
  }

  predicate Faultless(s: State, cfg: Config, steps: seq<Step>) {
    steps == [] ||
    (var before := Exec(s, cfg, steps[..|steps| - 1]);
     Faultless(s, cfg, steps[..|steps| - 1]) && (before.Some? ==> !Faulty(before.value, steps[|steps| - 1])))
  }

  /** In every run the history is in order exactly if no step was faulty. */
  lemma {:induction false} OrderInEveryRun(s: State, cfg: Config, steps: seq<Step>)
    requires Initial(s) && Exec(s, cfg, steps).Some?
    ensures Orderly(Exec(s, cfg, steps).value.hist) <==> Faultless(s, cfg, steps)
    ensures Faultless(s, cfg, steps) ==> Inv(Exec(s, cfg, steps).value)
    decreases |steps|
  {
    hide Inv, Do, Enabled, Orderly, Faulty;
    if steps == [] {
      InitialInv(s);
    } else {
      var init, step := steps[..|steps| - 1], steps[|steps| - 1];
      OrderInEveryRun(s, cfg, init);
      var before := Exec(s, cfg, init).value;
      HistoryGrows(before, cfg, step);
      if !Faultless(s, cfg, init) {
        if Orderly(Do(before, cfg, step).hist) { OrderlyPrefix(before.hist, Do(before, cfg, step).hist); }
      } else if Faulty(before, step) {
        FaultBreaks(before, cfg, step);
      } else {
        StepKeeps(before, cfg, step);
        InvOrderly(Do(before, cfg, step));
      }
    }
  }

  lemma InvOrderly(s: State)
    requires Inv(s)
    ensures Orderly(s.hist)
  {
  }

  lemma InitialInv(s: State)
    requires Initial(s)
    ensures Inv(s) && Orderly(s.hist)
  {
  }

  /** The same in terms of pairs of events: each attempt ends at most once, a CONNECTED event follows the
      end of the connection before it, and between transport connects the transport is closed once. */
  lemma {:induction false} OnceInEveryRun(s: State, cfg: Config, steps: seq<Step>)
    requires Initial(s) && Exec(s, cfg, steps).Some?
    ensures var h := Exec(s, cfg, steps).value.hist;
            Faultless(s, cfg, steps) <==> OneEndPerAttempt(h) && EndBetweenConnected(h) && OneCloseBetweenConnects(h)
  {
    hide Exec, Faultless, Orderly, OneEndPerAttempt, EndBetweenConnected, OneCloseBetweenConnects;
    OrderInEveryRun(s, cfg, steps);
    OrderMeans(Exec(s, cfg, steps).value.hist);
  }

  // The part of it that no fault can break.

  ghost predicate ReconnectInv(s: State) {
    && EndBetweenConnected(s.hist)
    && (s.status == Init || s.status == WaitTimeout ==> EndsSinceConnected(s.hist) != Some(0))
  }

  lemma NotConnected(h: seq<Event>, e: Event)
    requires EndBetweenConnected(h) && e != EvConnected
    ensures EndBetweenConnected(h + [e])
    ensures EndsSinceConnected(h) != Some(0) || IsEnd(e) ==> EndsSinceConnected(h + [e]) != Some(0)
  {
    hide EndsSinceConnected, EndBetweenConnected, Ends, Closes, LastConnect, FirstPing, Orderly, MayFollow;
    ConnectedStep(h, e);
    OneMore(h, e);
  }

  lemma ReconnectAfterAbort(s: State, cfg: Config)
    requires ReconnectInv(s)
    ensures ReconnectInv(Abort(s, cfg))
  {
    hide EndsSinceConnected, EndBetweenConnected;
    NotConnected(s.hist, TransportClose);
    NotConnected(s.hist + [TransportClose], EvDisconnected);
    assert s.hist + [TransportClose] + [EvDisconnected] == s.hist + [TransportClose, EvDisconnected];
  }

  lemma ReconnectAfterConnect(s: State, cfg: Config, result: ConnectResult)
    requires ReconnectInv(s) && s.status == Init
    ensures ReconnectInv(AfterConnect(s, cfg, result))
  {
    hide EndsSinceConnected, EndBetweenConnected, Abort;
    var h := s.hist + [BeforeConnect];
    var g := h + [Connect(result)];
    NotConnected(s.hist, BeforeConnect);
    NotConnected(h, Connect(result));
    ConnectedStep(g, EvConnected);
    assert g == s.hist + [BeforeConnect, Connect(result)];
    ReconnectAfterAbort(s.(hist := g), cfg);
  }

  lemma ReconnectAfterArm(s: State, cfg: Config, t1: nat, t2: nat, t3: nat, t4: nat)
    requires ReconnectInv(s)
    ensures ReconnectInv(AfterConnectedArm(s, cfg, t1, t2, t3, t4))
  {
    hide EndsSinceConnected, EndBetweenConnected, Abort;
    NotConnected(s.hist, PingSent(t2, t3));
    var p := AfterPing(s, cfg, t1, t2, t3).(now := t4);
    NotConnected(p.hist, PongTimeout(t4));
    ReconnectAfterAbort(p.(hist := p.hist + [PongTimeout(t4)]), cfg);
  }

  lemma ReconnectAfterClose(s: State, cfg: Config, step: Step)
    requires ReconnectInv(s) && Enabled(s, cfg, step)
    requires step == CloseAndReconnect || step == CloseAndStop || step == FinishClose
    ensures ReconnectInv(Do(s, cfg, step))
  {
    hide EndsSinceConnected, EndBetweenConnected;
    var e := if step == CloseAndReconnect then TransportClose else if step == CloseAndStop then EvClosed else EvFinish;
    var f := if step == CloseAndReconnect then EvClosed else TransportClose;
    NotConnected(s.hist, e);
    NotConnected(s.hist + [e], f);
    assert s.hist + [e] + [f] == s.hist + [e, f];
  }

  lemma ReconnectAfterFrame(s: State)
    requires ReconnectInv(s) && s.pc.Got?
    ensures ReconnectInv(AfterFrame(s))
  {
    hide EndsSinceConnected, EndBetweenConnected, AfterRecv, IsEnd, Ends, Closes, LastConnect;
    if s.pc.kind == PongFrame {
      NotConnected(s.hist, PongIn);
      assert AfterFrame(s).hist == s.hist + [PongIn] && AfterFrame(s).status == s.status;
    } else if s.pc.kind == CloseFrame {
      NotConnected(s.hist, CloseIn);
    } else {
      assert AfterFrame(s).hist == s.hist;
    }
  }

  lemma ReconnectStep(s: State, cfg: Config, step: Step)
    requires ReconnectInv(s) && Enabled(s, cfg, step)
    ensures ReconnectInv(Do(s, cfg, step))
  {
    hide EndsSinceConnected, EndBetweenConnected, AfterConnect, AfterConnectedArm, AfterFrame, AfterHandshake, Abort, AfterRecv;
    match step {
      case DoConnect(result) => ReconnectAfterConnect(s, cfg, result);
      case ConnectedArm(t1, t2, t3, t4) => ReconnectAfterArm(s, cfg, t1, t2, t3, t4);
      case CloseAndReconnect => ReconnectAfterClose(s, cfg, step);
      case CloseAndStop => ReconnectAfterClose(s, cfg, step);
      case FinishClose => ReconnectAfterClose(s, cfg, step);
      case FrameDone => ReconnectAfterFrame(s);
      case SendFails(_) => ReconnectAfterAbort(s, cfg);
      case HandlerSendFails => ReconnectAfterAbort(s, cfg);
      case ReadFails => ReconnectAfterAbort(s, cfg);
      case PollFails => ReconnectAfterAbort(s, cfg);
      case ClosingArm => NotConnected(s.hist, CloseEcho);
      case _ =>
    }
  }

  /** In every run, faults or none, two CONNECTED events have an end event between them. */
  lemma {:induction false} ReconnectInEveryRun(s: State, cfg: Config, steps: seq<Step>)
    requires Initial(s) && Exec(s, cfg, steps).Some?
    ensures EndBetweenConnected(Exec(s, cfg, steps).value.hist)
    ensures ReconnectInv(Exec(s, cfg, steps).value)
    decreases |steps|
  {
    hide Do, Enabled, EndsSinceConnected, EndBetweenConnected;
    if steps == [] {
      EmptyOrder();
      OneMoreNone();
    } else {
      ReconnectInEveryRun(s, cfg, steps[..|steps| - 1]);
      ReconnectStep(Exec(s, cfg, steps[..|steps| - 1]).value, cfg, steps[|steps| - 1]);
    }
  }

  lemma OneMoreNone()
    ensures EndsSinceConnected([]) == None
  {
  }

  // Both faults do occur.

  lemma Extend(s: State, cfg: Config, run: seq<Step>, u: State, step: Step) returns (run': seq<Step>, u': State)
    requires Exec(s, cfg, run) == Some(u) && Enabled(u, cfg, step)
    ensures run' == run + [step] && u' == Do(u, cfg, step) && Exec(s, cfg, run') == Some(u')
    ensures Faultless(s, cfg, run') ==> !Faulty(u, step)
  {
    hide Do, Enabled, Faulty;
    run', u' := run + [step], Do(u, cfg, step);
    assert run'[..|run|] == run;
  }

  lemma Connects(s: State, cfg: Config) returns (run: seq<Step>, u: State)
    requires Initial(s)
    ensures Exec(s, cfg, run) == Some(u)
    ensures u == s.(status := Connected, open := true, waitForPong := false, pc := JustConnected,
                    hist := [BeforeConnect, Connect(Established), EvConnected])
  {
    hide Exec, Faultless, Faulty;
    EmptyRun(s, cfg);
    run, u := Extend(s, cfg, [], s, Enter);
    run, u := Extend(s, cfg, run, u, DoConnect(Established));
  }

  lemma PollFailsEarly(s: State, cfg: Config) returns (run: seq<Step>, u: State)
    requires Initial(s) && cfg.autoReconnect
    ensures Exec(s, cfg, run) == Some(u)
    ensures u == s.(status := WaitTimeout, waitForPong := false, reconnectTick := s.now, checked := {1},
                    hist := [BeforeConnect, Connect(Established), EvConnected, TransportClose, EvDisconnected])
  {
    hide Exec, Faultless, Faulty, AfterConnectedArm, AfterConnect, AfterFrame;
    run, u := Connects(s, cfg);
    run, u := Extend(s, cfg, run, u, CheckConnected(1));
    run, u := Extend(s, cfg, run, u, Peek(false));
    run, u := Extend(s, cfg, run, u, GiveLock);
    run, u := Extend(s, cfg, run, u, LookAtStatus);
    run, u := Extend(s, cfg, run, u, PollFails);
  }

  /** A sender that has seen the client connected gets the lock only after the poll has failed and the
      reconnect timer has run out: a second DISCONNECTED event for the same attempt. */
  lemma {:induction false} StaleSendHappens(s: State, cfg: Config) returns (run: seq<Step>)
    requires Initial(s) && cfg.autoReconnect
    ensures Exec(s, cfg, run).Some? && !OneEndPerAttempt(Exec(s, cfg, run).value.hist)
  {
    hide Exec, Faultless, Faulty, OneEndPerAttempt, AfterConnectedArm, AfterConnect, AfterFrame;
    var u: State;
    run, u := PollFailsEarly(s, cfg);
    run, u := Extend(s, cfg, run, u, Tick(cfg.waitTimeoutMs + 1));
    run, u := Extend(s, cfg, run, u, Enter);
    run, u := Extend(s, cfg, run, u, WaitArm);
    run, u := Extend(s, cfg, run, u, GiveLock);
    run, u := Extend(s, cfg, run, u, SendFails(1));
    TwoEnds(u.hist, 6);
  }

  lemma ClosesLate(s: State, cfg: Config) returns (run: seq<Step>, u: State)
    requires Initial(s) && cfg.autoReconnect
    ensures Exec(s, cfg, run) == Some(u)
    ensures u == s.(status := Closing, late := true, waitForPong := false, reconnectTick := s.now, pc := Reacquiring,
                    hist := [BeforeConnect, Connect(Established), EvConnected, TransportClose, EvDisconnected, CloseIn])
  {
    hide Exec, Faultless, Faulty, AfterConnectedArm, AfterConnect;
    run, u := Connects(s, cfg);
    run, u := Extend(s, cfg, run, u, Peek(true));
    run, u := Extend(s, cfg, run, u, ReadFrame(CloseFrame));
    run, u := Extend(s, cfg, run, u, HandlerSendFails);
    run, u := Extend(s, cfg, run, u, FrameDone);
  }

  /** The send of a handler fails while a CLOSE frame is being reported, and the close handshake goes on:
      a DISCONNECTED and a CLOSED event for the same attempt. */
  lemma {:induction false} LateCloseHappens(s: State, cfg: Config) returns (run: seq<Step>)
    requires Initial(s) && cfg.autoReconnect && cfg.closeReconnect
    ensures Exec(s, cfg, run).Some? && !OneEndPerAttempt(Exec(s, cfg, run).value.hist)
  {
    hide Exec, Faultless, Faulty, OneEndPerAttempt, AfterConnectedArm, AfterConnect, AfterFrame, Abort;
    var u: State;
    run, u := ClosesLate(s, cfg);
    run, u := Extend(s, cfg, run, u, Reacquire);
    run, u := Extend(s, cfg, run, u, GiveLock);
    run, u := Extend(s, cfg, run, u, LookAtStatus);
    run, u := Extend(s, cfg, run, u, Enter);
    assert u.pc == Entering && u.status == Closing && u.late;
    run, u := Extend(s, cfg, run, u, ClosingArm);
    run, u := Extend(s, cfg, run, u, GiveLock);
    run, u := Extend(s, cfg, run, u, LookAtStatus);
    run, u := Extend(s, cfg, run, u, CloseAndReconnect);
    TwoEnds(u.hist, 8);
  }

  lemma TwoEnds(h: seq<Event>, j: nat)
    requires 4 < j < |h| && IsEnd(h[4]) && IsEnd(h[j]) && forall k :: 4 < k < j ==> h[k] != BeforeConnect
    ensures !OneEndPerAttempt(h)
  {
  }

  lemma EmptyRun(s: State, cfg: Config)
    ensures Exec(s, cfg, []) == Some(s)
  {
  }
}
