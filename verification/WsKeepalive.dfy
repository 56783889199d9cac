/** Keep-alive: when a PING is taken to be unanswered, in every run of the connection state machine,
    whatever the other tasks do. */
module WsKeepalive {
  import opened Options
  import opened WsHistory
  import opened WsLifecycle

  /** A PONG_TIMEOUT comes only when the whole timeout has passed since the first PING that no PONG has
      answered, on the connection in use. */
  predicate TimeoutDue(h: seq<Event>, at: nat, cfg: Config) {
    cfg.pongTimeoutSec > 0 && FirstPing(h).Some? && at - FirstPing(h).value > cfg.pongTimeoutSec * 1000
  }

  ghost predicate PongsAwaited(h: seq<Event>, cfg: Config) {
    forall i :: 0 <= i < |h| && h[i].PongTimeout? ==> TimeoutDue(h[..i], h[i].at, cfg)
  }

  lemma AwaitedSplit(h: seq<Event>, e: Event, cfg: Config)
    ensures PongsAwaited(h + [e], cfg) <==> PongsAwaited(h, cfg) && (e.PongTimeout? ==> TimeoutDue(h, e.at, cfg))
  {
    hide TimeoutDue;
    var g := h + [e];
    assert g[..|h|] == h && g[|h|] == e;
    if PongsAwaited(h, cfg) && (e.PongTimeout? ==> TimeoutDue(h, e.at, cfg)) {
      forall i | 0 <= i < |g| && g[i].PongTimeout? ensures TimeoutDue(g[..i], g[i].at, cfg) {
        assert i < |h| ==> g[..i] == h[..i] && TimeoutDue(h[..i], h[i].at, cfg);
      }
    }
    if PongsAwaited(g, cfg) {
      forall i | 0 <= i < |h| && h[i].PongTimeout? ensures TimeoutDue(h[..i], h[i].at, cfg) {
        assert g[..i] == h[..i] && TimeoutDue(g[..i], g[i].at, cfg);
      }
    }
  }

  /** What the fields say about the history, once there has been a connection. */
  predicate FieldsTell(s: State, cfg: Config) {
    EndsSinceConnected(s.hist).Some? ==>
      if cfg.pongTimeoutSec > 0 then FirstPing(s.hist) == (if s.waitForPong then Some(s.pingpongTick) else None)
      else !s.waitForPong
  }

  /** The stamps are not in the future, so the unsigned differences do not wrap. */
  predicate StampsPast(s: State) {
    s.pingTick <= s.now && s.pingpongTick <= s.now && s.reconnectTick <= s.now
  }

  ghost predicate PingInv(s: State, cfg: Config) {
    && (s.status == Connected ==> EndsSinceConnected(s.hist).Some?)
    && FieldsTell(s, cfg) && StampsPast(s) && PongsAwaited(s.hist, cfg)
  }

  lemma AbortKeeps(s: State, cfg: Config)
    requires PingInv(s, cfg)
    ensures PingInv(Abort(s, cfg), cfg)
  {
    hide EndsSinceConnected, FirstPing, PongsAwaited, Orderly, Ends, Closes, LastConnect;
    var h := s.hist + [TransportClose];
    OneMore(s.hist, TransportClose);
    OneMore(h, EvDisconnected);
    AwaitedSplit(s.hist, TransportClose, cfg);
    AwaitedSplit(h, EvDisconnected, cfg);
    assert h + [EvDisconnected] == s.hist + [TransportClose, EvDisconnected];
  }

  lemma ConnectKeeps(s: State, cfg: Config, result: ConnectResult)
    requires PingInv(s, cfg) && s.status == Init
    ensures PingInv(AfterConnect(s, cfg, result), cfg)
  {
    hide EndsSinceConnected, FirstPing, PongsAwaited, Orderly, Ends, Closes, LastConnect, Abort;
    var h := s.hist + [BeforeConnect];
    var g := h + [Connect(result)];
    OneMore(s.hist, BeforeConnect);
    OneMore(h, Connect(result));
    OneMore(g, EvConnected);
    AwaitedSplit(s.hist, BeforeConnect, cfg);
    AwaitedSplit(h, Connect(result), cfg);
    AwaitedSplit(g, EvConnected, cfg);
    assert g == s.hist + [BeforeConnect, Connect(result)];
    AbortKeeps(s.(hist := g), cfg);
  }

  lemma PingKeeps(s: State, cfg: Config, t1: nat, t2: nat, t3: nat)
    requires PingInv(s, cfg) && s.status == Connected && s.now <= t1 <= t2 <= t3
    ensures PingInv(AfterPing(s, cfg, t1, t2, t3).(now := t3), cfg)
  {
    hide EndsSinceConnected, FirstPing, PongsAwaited, Orderly, Ends, Closes, LastConnect;
    OneMore(s.hist, PingSent(t2, t3));
    AwaitedSplit(s.hist, PingSent(t2, t3), cfg);
  }

  lemma ArmKeeps(s: State, cfg: Config, t1: nat, t2: nat, t3: nat, t4: nat)
    requires PingInv(s, cfg) && s.status == Connected && s.now <= t1 <= t2 <= t3 <= t4
    ensures PingInv(AfterConnectedArm(s, cfg, t1, t2, t3, t4), cfg)
  {
    hide EndsSinceConnected, FirstPing, PongsAwaited, Orderly, Ends, Closes, LastConnect, Abort, AfterPing;
    PingKeeps(s, cfg, t1, t2, t3);
    var p := AfterPing(s, cfg, t1, t2, t3).(now := t4);
    AfterPingStatus(s, cfg, t1, t2, t3);
    assert PingInv(p, cfg);
    if p.waitForPong && t4 - p.pingpongTick > cfg.pongTimeoutSec * 1000 {
      OneMore(p.hist, PongTimeout(t4));
      AwaitedSplit(p.hist, PongTimeout(t4), cfg);
      AbortKeeps(p.(hist := p.hist + [PongTimeout(t4)]), cfg);
    }
  }

  lemma AfterPingStatus(s: State, cfg: Config, t1: nat, t2: nat, t3: nat)
    ensures AfterPing(s, cfg, t1, t2, t3).status == s.status
  {
  }

  lemma PongKeeps(s: State, cfg: Config)
    requires PingInv(s, cfg)
    ensures PingInv(s.(waitForPong := false, hist := s.hist + [PongIn]), cfg)
  {
    hide EndsSinceConnected, FirstPing, PongsAwaited, Orderly, Ends, Closes, LastConnect, TimeoutDue;
    OneMore(s.hist, PongIn);
    AwaitedSplit(s.hist, PongIn, cfg);
  }

  /** A CLOSE frame, read or echoed, is no matter for the keep-alive. */
  lemma CloseEventKeeps(s: State, cfg: Config, e: Event)
    requires PingInv(s, cfg) && (e == CloseIn || e == CloseEcho)
    ensures PingInv(s.(hist := s.hist + [e]), cfg)
  {
    hide EndsSinceConnected, FirstPing, PongsAwaited, Orderly, Ends, Closes, LastConnect, TimeoutDue;
    OneMore(s.hist, e);
    AwaitedSplit(s.hist, e, cfg);
  }

  lemma FrameKeeps(s: State, cfg: Config)
    requires PingInv(s, cfg) && s.pc.Got?
    ensures PingInv(AfterFrame(s), cfg)
  {
    hide FieldsTell, PongsAwaited, EndsSinceConnected, AfterRecv, FirstPing, StampsPast;
    PongKeeps(s, cfg);
    CloseEventKeeps(s, cfg, CloseIn);
    StampsOnly(s, AfterFrame(s));
    var t := match s.pc.kind
             case PongFrame => s.(waitForPong := false, hist := s.hist + [PongIn])
             case CloseFrame => s.(hist := s.hist + [CloseIn])
             case _ => s;
    OtherFieldsFree(t, AfterFrame(s), cfg);
  }

  lemma StampsOnly(s: State, t: State)
    requires t.pingTick == s.pingTick && t.pingpongTick == s.pingpongTick && t.now == s.now
    requires t.reconnectTick == s.reconnectTick || t.reconnectTick == s.now
    ensures StampsPast(s) ==> StampsPast(t)
  {
  }

  lemma CloseKeeps(s: State, cfg: Config, step: Step)
    requires PingInv(s, cfg) && Enabled(s, cfg, step)
    requires step == CloseAndReconnect || step == CloseAndStop || step == FinishClose
    ensures PingInv(Do(s, cfg, step), cfg)
  {
    hide EndsSinceConnected, FirstPing, PongsAwaited, Orderly, Ends, Closes, LastConnect;
    var e := if step == CloseAndReconnect then TransportClose else if step == CloseAndStop then EvClosed else EvFinish;
    var f := if step == CloseAndReconnect then EvClosed else TransportClose;
    OneMore(s.hist, e);
    AwaitedSplit(s.hist, e, cfg);
    OneMore(s.hist + [e], f);
    AwaitedSplit(s.hist + [e], f, cfg);
    assert s.hist + [e] + [f] == s.hist + [e, f];
  }

  /** The rest of the state does not matter. */
  lemma OtherFieldsFree(s: State, t: State, cfg: Config)
    requires PingInv(s, cfg) && StampsPast(t)
    requires t.hist == s.hist && t.waitForPong == s.waitForPong && t.pingpongTick == s.pingpongTick
    requires t.status == Connected ==> s.status == Connected
    ensures PingInv(t, cfg)
  {
  }

  predicate MayAbort(step: Step) {
    step.SendFails? || step == HandlerSendFails || step == ReadFails || step == PollFails
  }

  lemma InvStamps(s: State, cfg: Config)
    requires PingInv(s, cfg)
    ensures StampsPast(s)
  {
  }

  lemma AbortStepKeeps(s: State, cfg: Config, step: Step)
    requires PingInv(s, cfg) && Enabled(s, cfg, step) && MayAbort(step)
    ensures PingInv(Do(s, cfg, step), cfg)
  {
    hide PingInv, StampsPast, AfterConnect, AfterConnectedArm, AfterFrame, AfterHandshake, Abort, AfterRecv;
    AbortKeeps(s, cfg);
    var a, t := Abort(s, cfg), Do(s, cfg, step);
    InvStamps(a, cfg);
    assert t == a.(checked := t.checked, pc := t.pc);
    StampsOnly(a, t);
    OtherFieldsFree(a, t, cfg);
  }

  /** The steps of the client task that leave at most an echo. */
  lemma ArmStepKeeps(s: State, cfg: Config, step: Step)
    requires PingInv(s, cfg) && Enabled(s, cfg, step) && IsArm(step)
    ensures PingInv(Do(s, cfg, step), cfg)
  {
    hide PingInv, StampsPast, AfterConnect, AfterConnectedArm, AfterFrame, AfterHandshake, Abort, AfterRecv;
    InvStamps(s, cfg);
    if step == WaitArm || step == ClosingArm || step == FinishStatus {
      SwitchKeeps(s, cfg, step);
    } else {
      var t := s.(pc := if step == Enter then Entering else if step == LeaveLoop then Exiting else Release);
      StampsOnly(s, t);
      OtherFieldsFree(s, t, cfg);
    }
  }

  lemma SwitchKeeps(s: State, cfg: Config, step: Step)
    requires PingInv(s, cfg) && Enabled(s, cfg, step) && (step == WaitArm || step == ClosingArm || step == FinishStatus)
    ensures PingInv(Do(s, cfg, step), cfg)
  {
    hide PingInv, StampsPast, AfterConnect, AfterConnectedArm, AfterFrame, AfterHandshake, Abort, AfterRecv;
    InvStamps(s, cfg);
    CloseEventKeeps(s, cfg, CloseEcho);
    var e := if step == ClosingArm && !s.closeSent then s.(hist := s.hist + [CloseEcho]) else s;
    var t := if step == ClosingArm then e.(closeSent := true, pc := Release)
             else if step == FinishStatus then s.(status := Unknow, pc := Done)
             else if s.now - s.reconnectTick > cfg.waitTimeoutMs then
               s.(status := Init, redirected := false, reconnectTick := s.now, pc := Release)
             else s.(pc := Release);
    StampsOnly(s, t);
    OtherFieldsFree(e, t, cfg);
  }

  lemma QuietStepKeeps(s: State, cfg: Config, step: Step)
    requires PingInv(s, cfg) && Enabled(s, cfg, step) && IsQuiet(step)
    ensures PingInv(Do(s, cfg, step), cfg)
  {
    hide PingInv, AfterConnect, AfterConnectedArm, AfterFrame, AfterHandshake, Abort, AfterRecv;
    InvStamps(s, cfg);
    hide StampsPast;
    var t := Do(s, cfg, step);
    assert t == s.(pc := t.pc);
    StampsOnly(s, t);
    OtherFieldsFree(s, t, cfg);
  }

  /** And those of others. */
  lemma OutsideStepKeeps(s: State, cfg: Config, step: Step)
    requires PingInv(s, cfg) && Enabled(s, cfg, step)
    requires step.Tick? || step == Stop || step == MarkCloseSent || step.CheckConnected? || step.SendDone?
    ensures PingInv(Do(s, cfg, step), cfg)
  {
    hide PingInv, AfterConnect, AfterConnectedArm, AfterFrame, AfterHandshake, Abort, AfterRecv;
    InvStamps(s, cfg);
    var t := Do(s, cfg, step);
    OtherFieldsFree(s, t, cfg);
  }

  lemma StepKeeps(s: State, cfg: Config, step: Step)
    requires PingInv(s, cfg) && Enabled(s, cfg, step)
    ensures PingInv(Do(s, cfg, step), cfg)
  {
    hide FieldsTell, PongsAwaited, AfterConnect, AfterConnectedArm, AfterFrame, Abort, AfterRecv;
    match step {
      case DoConnect(result) => ConnectKeeps(s, cfg, result);
      case ConnectedArm(t1, t2, t3, t4) =>
        ArmKeeps(s, cfg, t1, t2, t3, t4);
        OtherFieldsFree(AfterConnectedArm(s, cfg, t1, t2, t3, t4), Do(s, cfg, step), cfg);
      case FrameDone => FrameKeeps(s, cfg);
      case CloseAndReconnect => CloseKeeps(s, cfg, step);
      case CloseAndStop => CloseKeeps(s, cfg, step);
      case FinishClose => CloseKeeps(s, cfg, step);
      case _ => if MayAbort(step) { AbortStepKeeps(s, cfg, step); }
        else if IsArm(step) { ArmStepKeeps(s, cfg, step); }
        else if IsQuiet(step) { QuietStepKeeps(s, cfg, step); }
        else { OutsideStepKeeps(s, cfg, step); }
    }
  }

  /** In every run: while a PONG is awaited, the stamp is the time of the first PING since the last PONG
      or since the connection was made, and later PINGs do not move it; a PONG_TIMEOUT comes only when the
      whole timeout has passed since that PING with no PONG. */
  lemma {:induction false} AwaitedInEveryRun(s: State, cfg: Config, steps: seq<Step>)
    requires Initial(s) && StampsPast(s) && Exec(s, cfg, steps).Some?
    ensures PingInv(Exec(s, cfg, steps).value, cfg)
    decreases |steps|
  {
    hide PingInv, Do, Enabled;
    if steps == [] {
      InitialPingInv(s, cfg);
    } else {
      AwaitedInEveryRun(s, cfg, steps[..|steps| - 1]);
      StepKeeps(Exec(s, cfg, steps[..|steps| - 1]).value, cfg, steps[|steps| - 1]);
    }
  }

  lemma InitialPingInv(s: State, cfg: Config)
    requires Initial(s) && StampsPast(s)
    ensures PingInv(s, cfg)
  {
  }

  /** In every run, the CONNECTED arm aborts exactly if a PING of this connection is unanswered for longer
      than the timeout and no CLOSE frame has been sent. */
  lemma {:induction false} TimeoutExactly(s: State, cfg: Config, steps: seq<Step>, t1: nat, t2: nat, t3: nat, t4: nat)
    requires Initial(s) && StampsPast(s) && Exec(s, cfg, steps).Some?
    requires Enabled(Exec(s, cfg, steps).value, cfg, ConnectedArm(t1, t2, t3, t4))
    ensures var u := Exec(s, cfg, steps).value;
            var h, g := AfterPing(u, cfg, t1, t2, t3).hist, AfterConnectedArm(u, cfg, t1, t2, t3, t4).hist;
            if !u.closeSent && TimeoutDue(h, t4, cfg) then g == h + [PongTimeout(t4), TransportClose, EvDisconnected]
            else g == h
  {
    hide EndsSinceConnected, FirstPing, PongsAwaited, Orderly, Ends, Closes, LastConnect, Exec, AfterPing;
    AwaitedInEveryRun(s, cfg, steps);
    var u := Exec(s, cfg, steps).value;
    PingKeeps(u, cfg, t1, t2, t3);
    AfterPingStatus(u, cfg, t1, t2, t3);
    var h := AfterPing(u, cfg, t1, t2, t3).hist;
    assert h + [PongTimeout(t4)] + [TransportClose, EvDisconnected] == h + [PongTimeout(t4), TransportClose, EvDisconnected];
  }
}
