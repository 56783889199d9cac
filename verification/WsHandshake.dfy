/** The close handshake: what a CLOSE frame of the server leads to, in every run of the connection state
    machine, races or none. */
module WsHandshake {
  import opened Options
  import opened WsHistory
  import opened WsLifecycle

  /** The last event is a CLOSE frame, read or echoed. */
  predicate InClose(h: seq<Event>) {
    h != [] && (h[|h| - 1] == CloseIn || h[|h| - 1] == CloseEcho)
  }

  /** The transport has been closed in answer to it, and nothing else has happened since. */
  predicate AwaitsClosed(h: seq<Event>) {
    h != [] && h[|h| - 1] == TransportClose && InClose(h[..|h| - 1])
  }

  /** `e` may follow `h`: the CLOSE frame of the server is echoed at most once; then comes the CLOSED event,
      right away or after a transport close, or the FINISH event if the client has been stopped; and there
      are no other echoes and no other CLOSED events. */
  predicate MayFollowClose(h: seq<Event>, e: Event) {
    && (InClose(h) ==>
          e == EvClosed || e == TransportClose || e == EvFinish || (e == CloseEcho && h[|h| - 1] == CloseIn))
    && (AwaitsClosed(h) ==> e == EvClosed)
    && (e == EvClosed ==> InClose(h) || AwaitsClosed(h))
    && (e == CloseEcho ==> h != [] && h[|h| - 1] == CloseIn)
  }

  ghost predicate CloseOrder(h: seq<Event>) {
    forall i :: 0 <= i < |h| ==> MayFollowClose(h[..i], h[i])
  }

  lemma CloseMore(h: seq<Event>, e: Event)
    ensures CloseOrder(h) && MayFollowClose(h, e) ==> CloseOrder(h + [e])
    ensures InClose(h + [e]) <==> e == CloseIn || e == CloseEcho
    ensures AwaitsClosed(h + [e]) <==> e == TransportClose && InClose(h)
  {
    hide MayFollowClose;
    var g := h + [e];
    assert g[..|h|] == h && g[|h|] == e;
    if CloseOrder(h) && MayFollowClose(h, e) {
      forall i | 0 <= i < |g| ensures MayFollowClose(g[..i], g[i]) {
        assert i < |h| ==> g[..i] == h[..i] && MayFollowClose(h[..i], h[i]);
      }
    }
  }

  /** A history in which no close handshake is going on. */
  ghost predicate Settled(h: seq<Event>) {
    CloseOrder(h) && !InClose(h) && !AwaitsClosed(h)
  }

  lemma SettledMore(h: seq<Event>, e: Event)
    requires Settled(h) && e != EvClosed && e != CloseEcho && e != CloseIn
    ensures Settled(h + [e])
  {
    hide CloseOrder;
    CloseMore(h, e);
  }

  /** The status is CLOSING exactly while the history ends in a close handshake, and nothing is read then. */
  ghost predicate CloseInv(s: State) {
    && CloseOrder(s.hist) && !AwaitsClosed(s.hist)
    && (InClose(s.hist) <==> s.status == Closing && !Over(s.pc))
    && (s.hist != [] && s.hist[|s.hist| - 1] == CloseEcho ==> s.closeSent)
    && (InUse(s.pc) ==> s.status == Connected || s.status == WaitTimeout || s.status == Unknow)
    && (s.pc == AwaitingClose ==> s.status == Closing && s.closeSent)
  }

  lemma AbortSettles(s: State, cfg: Config)
    requires CloseInv(s)
    ensures CloseInv(Abort(s, cfg)) && Abort(s, cfg).pc == s.pc
    ensures s.status == Closing ==> Abort(s, cfg) == s
    ensures s.status != Closing ==> Abort(s, cfg).status != Closing
  {
    hide CloseOrder, MayFollowClose;
    if s.status == Connected || s.status == Init {
      SettledMore(s.hist, TransportClose);
      SettledMore(s.hist + [TransportClose], EvDisconnected);
      assert s.hist + [TransportClose] + [EvDisconnected] == s.hist + [TransportClose, EvDisconnected];
    }
  }

  lemma NotSettling(h: seq<Event>)
    requires Settled(h)
    ensures h == [] || h[|h| - 1] != CloseEcho
  {
  }

  lemma ConnectSettles(s: State, cfg: Config, result: ConnectResult)
    requires CloseInv(s) && s.status == Init && s.pc == Entering
    ensures CloseInv(AfterConnect(s, cfg, result))
  {
    hide CloseInv, Abort;
    var h := s.hist + [BeforeConnect];
    var g := h + [Connect(result)];
    EventSettles(s, BeforeConnect);
    EventSettles(s.(hist := h), Connect(result));
    EventSettles(s.(hist := g), EvConnected);
    assert g == s.hist + [BeforeConnect, Connect(result)];
    var c := s.(hist := g);
    AbortSettles(c, cfg);
    match result
    case Failed => SilentKeeps(Abort(c, cfg), AfterConnect(s, cfg, result));
    case Redirected => SilentKeeps(c, AfterConnect(s, cfg, result));
    case Established => SilentKeeps(c.(hist := g + [EvConnected]), AfterConnect(s, cfg, result));
  }

  /** An event that is no matter for the handshake, outside of one. */
  lemma EventSettles(s: State, e: Event)
    requires CloseInv(s) && s.status != Closing && e != EvClosed && e != CloseEcho && e != CloseIn
    ensures CloseInv(s.(hist := s.hist + [e]))
  {
    hide CloseOrder, MayFollowClose, InClose, AwaitsClosed;
    SettledMore(s.hist, e);
    NotSettling(s.hist + [e]);
  }

  lemma ArmSettles(s: State, cfg: Config, t1: nat, t2: nat, t3: nat, t4: nat)
    requires CloseInv(s) && s.status == Connected && s.pc == Entering
    ensures CloseInv(AfterConnectedArm(s, cfg, t1, t2, t3, t4).(pc := Release))
  {
    hide CloseInv, Abort, AfterPing;
    var p := AfterPing(s, cfg, t1, t2, t3).(now := t4);
    PingSettles(s, cfg, t1, t2, t3);
    SilentKeeps(AfterPing(s, cfg, t1, t2, t3), p);
    SilentKeeps(p, p.(pc := Release));
    EventSettles(p, PongTimeout(t4));
    var q := p.(hist := p.hist + [PongTimeout(t4)]);
    AbortSettles(q, cfg);
    SilentKeeps(Abort(q, cfg), Abort(q, cfg).(pc := Release));
  }

  lemma PingSettles(s: State, cfg: Config, t1: nat, t2: nat, t3: nat)
    requires CloseInv(s) && s.status == Connected
    ensures CloseInv(AfterPing(s, cfg, t1, t2, t3))
    ensures AfterPing(s, cfg, t1, t2, t3).status == s.status && AfterPing(s, cfg, t1, t2, t3).pc == s.pc
  {
    hide CloseInv;
    CloseFacts(s);
    EventSettles(s, PingSent(t2, t3));
    SilentKeeps(s.(hist := s.hist + [PingSent(t2, t3)]), AfterPing(s, cfg, t1, t2, t3).(hist := s.hist + [PingSent(t2, t3)]));
  }

  /** A frame read to its end: a CLOSE frame makes the status CLOSING, whatever it was, and leaves its event;
      no other frame changes the status. */
  lemma FrameDecides(s: State, cfg: Config)
    requires Enabled(s, cfg, FrameDone)
    ensures var t := Do(s, cfg, FrameDone);
            && t.status == (if s.pc.kind == CloseFrame then Closing else s.status)
            && t.hist == s.hist + (match s.pc.kind case CloseFrame => [CloseIn] case PongFrame => [PongIn] case _ => [])
            && t.pc == (if s.pc.first then Reacquiring else Head)
            && t.waitForPong == (s.waitForPong && s.pc.kind != PongFrame)
  {
  }

  lemma FrameSettles(s: State, cfg: Config)
    requires CloseInv(s) && Enabled(s, cfg, FrameDone)
    ensures CloseInv(Do(s, cfg, FrameDone))
  {
    hide CloseOrder, MayFollowClose, Do;
    FrameDecides(s, cfg);
    CloseMore(s.hist, CloseIn);
    assert MayFollowClose(s.hist, CloseIn) by { ReadMayFollow(s.hist); }
    SettledMore(s.hist, PongIn);
    assert s.hist + [] == s.hist;
  }

  lemma ReadMayFollow(h: seq<Event>)
    requires Settled(h)
    ensures MayFollowClose(h, CloseIn)
  {
  }

  /** A step that leaves these events and is in the handshake no more. */
  lemma TwoEvents(s: State, t: State, e: Event, f: Event)
    requires CloseInv(s) && t.hist == s.hist + [e, f]
    requires MayFollowClose(s.hist, e) && MayFollowClose(s.hist + [e], f)
    requires f != CloseIn && f != CloseEcho && !(f == TransportClose && InClose(s.hist + [e]))
    requires (t.status != Closing || Over(t.pc)) && !InUse(t.pc) && t.pc != AwaitingClose
    ensures CloseInv(t)
  {
    hide CloseOrder, MayFollowClose, InClose, AwaitsClosed;
    CloseMore(s.hist, e);
    CloseMore(s.hist + [e], f);
    assert s.hist + [e] + [f] == s.hist + [e, f];
    NoCloseLast(t.hist);
  }

  lemma NoCloseLast(h: seq<Event>)
    requires h != [] && !InClose(h)
    ensures h[|h| - 1] != CloseEcho
  {
  }

  lemma EchoSettles(s: State, cfg: Config)
    requires CloseInv(s) && Enabled(s, cfg, ClosingArm)
    ensures CloseInv(Do(s, cfg, ClosingArm))
  {
    hide CloseOrder, MayFollowClose;
    CloseMore(s.hist, CloseEcho);
    if !s.closeSent { assert MayFollowClose(s.hist, CloseEcho) by { EchoMayFollow(s.hist); } }
  }

  lemma EchoMayFollow(h: seq<Event>)
    requires InClose(h) && h[|h| - 1] != CloseEcho
    ensures MayFollowClose(h, CloseEcho)
  {
  }

  lemma ClosedMayFollow(h: seq<Event>)
    requires InClose(h)
    ensures MayFollowClose(h, EvClosed) && MayFollowClose(h, TransportClose)
    ensures MayFollowClose(h + [TransportClose], EvClosed)
  {
    assert (h + [TransportClose])[..|h|] == h;
  }

  lemma FinishMayFollow(h: seq<Event>)
    requires !AwaitsClosed(h)
    ensures MayFollowClose(h, EvFinish) && !InClose(h + [EvFinish]) && MayFollowClose(h + [EvFinish], TransportClose)
  {
  }

  /** The end of the handshake, and of the task. */
  lemma EndSettles(s: State, cfg: Config, step: Step)
    requires CloseInv(s) && Enabled(s, cfg, step)
    requires step == CloseAndReconnect || step == CloseAndStop || step == FinishClose
    ensures CloseInv(Do(s, cfg, step))
  {
    hide CloseOrder, MayFollowClose, InClose, AwaitsClosed;
    var t := Do(s, cfg, step);
    match step
    case CloseAndReconnect =>
      ClosedMayFollow(s.hist);
      TwoEvents(s, t, TransportClose, EvClosed);
    case CloseAndStop =>
      ClosedMayFollow(s.hist);
      CloseMore(s.hist, EvClosed);
      NoCloseLast(t.hist);
    case FinishClose =>
      FinishMayFollow(s.hist);
      TwoEvents(s, t, EvFinish, TransportClose);
  }

  lemma AbortStepSettles(s: State, cfg: Config, step: Step)
    requires CloseInv(s) && Enabled(s, cfg, step)
    requires step.SendFails? || step == HandlerSendFails || step == ReadFails || step == PollFails
    ensures CloseInv(Do(s, cfg, step))
  {
    hide CloseOrder, Abort, InClose, AwaitsClosed;
    AbortSettles(s, cfg);
  }

  /** No clause is about the other fields, or about where the task is but for these places. */
  lemma SilentKeeps(s: State, t: State)
    requires CloseInv(s) && t.hist == s.hist && (s.closeSent ==> t.closeSent)
    requires (t.status == Closing && !Over(t.pc)) <==> (s.status == Closing && !Over(s.pc))
    requires InUse(t.pc) ==> t.status == Connected || t.status == WaitTimeout || t.status == Unknow
    requires t.pc == AwaitingClose ==> t.status == Closing && t.closeSent
    ensures CloseInv(t)
  {
  }

  lemma CloseFacts(s: State)
    requires CloseInv(s)
    ensures InUse(s.pc) ==> s.status == Connected || s.status == WaitTimeout || s.status == Unknow
    ensures s.pc == AwaitingClose ==> s.status == Closing && s.closeSent
  {
  }

  /** The steps that leave no event. */
  lemma SilentSettles(s: State, cfg: Config, step: Step)
    requires CloseInv(s) && Enabled(s, cfg, step)
    requires step == Enter || step == LeaveLoop || step == WaitArm || step == IdleArm || step == FinishStatus
             || step.Tick? || step == Stop || step == MarkCloseSent || step.CheckConnected? || step.SendDone?
    ensures CloseInv(Do(s, cfg, step))
  {
    hide CloseInv, Abort, AfterConnect, AfterConnectedArm, AfterFrame, AfterHandshake;
    CloseFacts(s);
    SilentKeeps(s, Do(s, cfg, step));
  }

  lemma QuietPlaces(s: State, cfg: Config, step: Step)
    requires Enabled(s, cfg, step) && IsQuiet(step)
    ensures var pc := Do(s, cfg, step).pc;
            && (InUse(pc) ==> s.status == Connected || InUse(s.pc))
            && (pc == AwaitingClose ==> s.status == Closing && s.closeSent)
            && (Over(pc) <==> Over(s.pc))
  {
    hide Abort, AfterConnect, AfterConnectedArm, AfterFrame, AfterHandshake, AfterClosingArm;
    match step
    case ReadNothing =>
    case Reacquire =>
    case GiveLock =>
    case LookAtStatus =>
    case PollData =>
    case PollNothing =>
    case Peek(_) =>
    case ReadFrame(_) =>
  }

  lemma QuietSettles(s: State, cfg: Config, step: Step)
    requires CloseInv(s) && Enabled(s, cfg, step) && IsQuiet(step)
    ensures CloseInv(Do(s, cfg, step))
  {
    hide CloseInv, Do, Enabled, InUse;
    CloseFacts(s);
    QuietDo(s, cfg, step);
    QuietPlaces(s, cfg, step);
    SilentKeeps(s, Do(s, cfg, step));
  }

  lemma CloseStep(s: State, cfg: Config, step: Step)
    requires CloseInv(s) && Enabled(s, cfg, step)
    ensures CloseInv(Do(s, cfg, step))
  {
    hide CloseInv, Abort, AfterConnect, AfterConnectedArm, AfterFrame, AfterHandshake, AfterClosingArm, Over;
    match step {
      case DoConnect(result) => ConnectSettles(s, cfg, result);
      case ConnectedArm(t1, t2, t3, t4) => ArmSettles(s, cfg, t1, t2, t3, t4);
      case FrameDone => FrameSettles(s, cfg);
      case ClosingArm => EchoSettles(s, cfg);
      case CloseAndReconnect => EndSettles(s, cfg, step);
      case CloseAndStop => EndSettles(s, cfg, step);
      case FinishClose => EndSettles(s, cfg, step);
      case SendFails(_) => AbortStepSettles(s, cfg, step);
      case HandlerSendFails => AbortStepSettles(s, cfg, step);
      case ReadFails => AbortStepSettles(s, cfg, step);
      case PollFails => AbortStepSettles(s, cfg, step);
      case _ => if IsQuiet(step) { QuietSettles(s, cfg, step); } else { SilentSettles(s, cfg, step); }
    }
  }

  /** In every run: after a CLOSE frame of the server nothing happens but its echo and the CLOSED event, or
      FINISH if the client has been stopped; CLOSED events and echoes come from nowhere else; and the status is
      CLOSING from the one to the other. */
  lemma {:induction false} CloseInEveryRun(s: State, cfg: Config, steps: seq<Step>)
    requires Initial(s) && Exec(s, cfg, steps).Some?
    ensures CloseInv(Exec(s, cfg, steps).value)
    decreases |steps|
  {
    hide CloseInv, Do, Enabled;
    if steps == [] {
      InitialClose(s);
    } else {
      CloseInEveryRun(s, cfg, steps[..|steps| - 1]);
      CloseStep(Exec(s, cfg, steps[..|steps| - 1]).value, cfg, steps[|steps| - 1]);
    }
  }

  lemma InitialClose(s: State)
    requires Initial(s)
    ensures CloseInv(s)
  {
  }

  // The handshake comes to its end.

  /** The steps of the client task itself. */
  predicate Own(step: Step) {
    !(step.Tick? || step == Stop || step == MarkCloseSent || step.CheckConnected? || step.SendDone? || step.SendFails?
      || step == HandlerSendFails)
  }

  /** How many of them the handshake still takes at most. */
  function ToGo(s: State): nat {
    match s.pc
    case Exiting => 1
    case AwaitingClose => 1
    case Tail => if s.closeSent then 2 else 6
    case Release => if s.closeSent then 3 else 7
    case Entering => 4
    case Head => 5
    case _ => 8
  }

  /** One step in a handshake: one of the task brings it closer to its end or ends it, one of another task
      changes nothing. */
  lemma HandshakeStep(s: State, cfg: Config, step: Step)
    requires CloseInv(s) && s.status == Closing && !Over(s.pc) && Enabled(s, cfg, step)
    ensures var t := Do(s, cfg, step);
            || Ended(s.hist, t.hist)
            || (t.status == Closing && !Over(t.pc) && s.hist <= t.hist
                && ToGo(t) <= ToGo(s) - (if Own(step) then 1 else 0))
  {
    hide CloseInv, AfterConnect, AfterConnectedArm, AfterFrame;
    CloseFacts(s);
    var t := Do(s, cfg, step);
    match step
    case CloseAndReconnect => assert t.hist[|s.hist| + 1] == EvClosed;
    case CloseAndStop => assert t.hist[|s.hist|] == EvClosed;
    case FinishClose => assert t.hist[|s.hist|] == EvFinish;
    case _ =>
  }

  /** Since `h` the CLOSED event has come, or FINISH. */
  ghost predicate Ended(h: seq<Event>, g: seq<Event>) {
    h <= g && exists i :: |h| <= i < |g| && (g[i] == EvClosed || g[i] == EvFinish)
  }

  function CountOwn(steps: seq<Step>): nat {
    if steps == [] then 0 else CountOwn(steps[..|steps| - 1]) + (if Own(steps[|steps| - 1]) then 1 else 0)
  }

  /** In every run: eight steps of the client task after a CLOSE frame of the server, the CLOSED event has
      come, or FINISH if the client has been stopped, whatever the other tasks do meanwhile. */
  lemma {:induction false} CloseEnds(s: State, cfg: Config, more: seq<Step>)
    requires CloseInv(s) && s.status == Closing && !Over(s.pc) && Exec(s, cfg, more).Some?
    ensures var t := Exec(s, cfg, more).value;
            || Ended(s.hist, t.hist)
            || (CloseInv(t) && t.status == Closing && !Over(t.pc) && s.hist <= t.hist && ToGo(t) + CountOwn(more) <= ToGo(s) <= 8)
    decreases |more|
  {
    hide CloseInv, Do, Enabled, Ended, Own;
    if more != [] {
      var init, step := more[..|more| - 1], more[|more| - 1];
      CloseEnds(s, cfg, init);
      var u := Exec(s, cfg, init).value;
      HistoryGrows(u, cfg, step);
      EndedGrows(s.hist, u.hist, Do(u, cfg, step).hist);
      if !Ended(s.hist, u.hist) {
        HandshakeStep(u, cfg, step);
        CloseStep(u, cfg, step);
      }
    }
  }

  lemma EndedGrows(h: seq<Event>, g: seq<Event>, k: seq<Event>)
    requires g <= k
    ensures Ended(h, g) ==> Ended(h, k)
    ensures h <= g && Ended(g, k) ==> Ended(h, k)
  {
  }

  /** The step of a switch arm. */
  function ArmStep(s: State): Step {
    match s.status
    case Init => DoConnect(Failed)
    case Connected => ConnectedArm(s.now, s.now, s.now, s.now)
    case WaitTimeout => WaitArm
    case Closing => ClosingArm
    case Unknow => IdleArm
  }

  function SomeStep(s: State, cfg: Config): Step {
    match s.pc
    case Head => if s.run then Enter else LeaveLoop
    case Entering => ArmStep(s)
    case JustConnected => Peek(false)
    case Receiving(_) => ReadFails
    case Got(_, _) => FrameDone
    case Reacquiring => Reacquire
    case Release => GiveLock
    case Tail => LookAtStatus
    case Polling => PollNothing
    case AwaitingClose => if cfg.closeReconnect then CloseAndReconnect else CloseAndStop
    case Exiting => FinishClose
    case _ => FinishStatus
  }

  /** And the task is never stuck, in a handshake or elsewhere. */
  lemma TaskMoves(s: State, cfg: Config)
    requires s.pc != Done
    ensures exists step :: Own(step) && Enabled(s, cfg, step)
  {
    assert Own(SomeStep(s, cfg)) && Enabled(s, cfg, SomeStep(s, cfg));
  }

  lemma ReadsClose(s: State, cfg: Config) returns (run: seq<Step>, u: State)
    requires s.pc == Tail && s.status == Connected && s.open
    ensures Exec(s, cfg, run) == Some(u) && run == [LookAtStatus, PollData, ReadFrame(CloseFrame), FrameDone]
    ensures u == s.(pc := Head, status := Closing, late := false, hist := s.hist + [CloseIn])
  {
    hide Exec, Faultless, Faulty, AfterConnectedArm, AfterConnect, Abort, AfterHandshake;
    EmptyRun(s, cfg);
    run, u := Extend(s, cfg, [], s, LookAtStatus);
    run, u := Extend(s, cfg, run, u, PollData);
    run, u := Extend(s, cfg, run, u, ReadFrame(CloseFrame));
    run, u := Extend(s, cfg, run, u, FrameDone);
  }

  lemma EchoesClose(s: State, cfg: Config, run: seq<Step>, u: State) returns (run': seq<Step>, u': State)
    requires Exec(s, cfg, run) == Some(u) && u.pc == Head && u.status == Closing && u.run && !u.closeSent
    ensures Exec(s, cfg, run') == Some(u') && run' == run + [Enter, ClosingArm, GiveLock, LookAtStatus]
    ensures u' == u.(pc := AwaitingClose, closeSent := true, hist := u.hist + [CloseEcho])
  {
    hide Exec, Faultless, Faulty, AfterConnectedArm, AfterConnect, Abort, AfterHandshake, AfterFrame;
    run', u' := Extend(s, cfg, run, u, Enter);
    run', u' := Extend(s, cfg, run', u', ClosingArm);
    var e := u.(pc := Release, closeSent := true, hist := u.hist + [CloseEcho]);
    assert u' == e;
    run', u' := AwaitsClose(s, cfg, run', e);
  }

  lemma AwaitsClose(s: State, cfg: Config, run: seq<Step>, u: State) returns (run': seq<Step>, u': State)
    requires Exec(s, cfg, run) == Some(u) && u.pc == Release && u.status == Closing && u.closeSent
    ensures Exec(s, cfg, run') == Some(u') && run' == run + [GiveLock, LookAtStatus] && u' == u.(pc := AwaitingClose)
  {
    hide Exec, Faultless, Faulty, AfterConnectedArm, AfterConnect, Abort, AfterHandshake, AfterFrame;
    run', u' := Extend(s, cfg, run, u, GiveLock);
    run', u' := Extend(s, cfg, run', u', LookAtStatus);
  }

  /** A CONNECTED client that nobody disturbs: it polls, reads the CLOSE frame, echoes it in the next turn, and
      ends the handshake with exactly one CLOSED event, to connect again or to leave. */
  lemma ConnectedCloses(s: State, cfg: Config) returns (run: seq<Step>, u: State)
    requires s.pc == Tail && s.status == Connected && s.open && s.run && !s.closeSent
    ensures Exec(s, cfg, run) == Some(u)
    ensures run == [LookAtStatus, PollData, ReadFrame(CloseFrame), FrameDone, Enter, ClosingArm, GiveLock, LookAtStatus,
                    if cfg.closeReconnect then CloseAndReconnect else CloseAndStop]
    ensures u.hist == s.hist + [CloseIn, CloseEcho] + (if cfg.closeReconnect then [TransportClose, EvClosed] else [EvClosed])
    ensures if cfg.closeReconnect then u.status == WaitTimeout && u.run && !u.closeSent && u.pc == Head
            else !u.run && u.closeSent && u.pc == Exiting
  {
    hide Exec, Faultless, Faulty, AfterHandshake;
    run, u := ReadsClose(s, cfg);
    run, u := EchoesClose(s, cfg, run, u);
    HandshakeEnds(u, cfg);
    assert s.hist + [CloseIn] + [CloseEcho] == s.hist + [CloseIn, CloseEcho];
    run, u := Extend(s, cfg, run, u, if cfg.closeReconnect then CloseAndReconnect else CloseAndStop);
  }

  lemma HandshakeEnds(s: State, cfg: Config)
    ensures var u := AfterHandshake(s, cfg.closeReconnect);
            && u.hist == s.hist + (if cfg.closeReconnect then [TransportClose, EvClosed] else [EvClosed])
            && if cfg.closeReconnect then u.status == WaitTimeout && u.run == s.run && !u.closeSent && u.pc == Head
               else !u.run && u.closeSent == s.closeSent && u.pc == Exiting
  {
  }
}
