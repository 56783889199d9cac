/** The clocks of the WebSocket client in every run: when a PING is sent, how long it waits before it connects
    again, and what a stop ends. */
module WsTimers {
  import opened Options
  import opened WsHistory
  import opened WsLifecycle

  // PINGs.

  /** The clock as the last PING stored it. */
  function LastPing(h: seq<Event>): Option<nat> {
    if h == [] then None
    else if h[|h| - 1].PingSent? then Some(h[|h| - 1].tick)
    else LastPing(h[..|h| - 1])
  }

  predicate NoPing(es: seq<Event>) {
    forall i :: 0 <= i < |es| ==> !es[i].PingSent?
  }

  lemma {:induction false} NoPingMore(h: seq<Event>, es: seq<Event>)
    requires NoPing(es)
    ensures LastPing(h + es) == LastPing(h)
    decreases |es|
  {
    if es == [] {
      assert h + es == h;
    } else {
      NoPingMore(h, es[..|es| - 1]);
      assert (h + es)[..|h + es| - 1] == h + es[..|es| - 1];
    }
  }

  /** The events that a step leaves. */
  function News(s: State, cfg: Config, step: Step): (es: seq<Event>)
    requires Enabled(s, cfg, step)
    ensures Do(s, cfg, step).hist == s.hist + es
  {
    HistoryGrows(s, cfg, step);
    Do(s, cfg, step).hist[|s.hist|..]
  }

  lemma NewsIs(s: State, cfg: Config, step: Step, es: seq<Event>)
    requires Enabled(s, cfg, step) && Do(s, cfg, step).hist == s.hist + es
    ensures News(s, cfg, step) == es
  {
    hide Do;
  }

  predicate IsAbort(step: Step) {
    step.SendFails? || step == HandlerSendFails || step == ReadFails || step == PollFails
  }

  /** Whether an abort finds anything to end. */
  predicate Alive(s: State) {
    s.status == Init || s.status == Connected
  }

  lemma AbortLeaves(s: State, cfg: Config)
    ensures var a := Abort(s, cfg);
            && a.hist == s.hist + (if Alive(s) then [TransportClose, EvDisconnected] else [])
            && a.now == s.now && a.pingTick == s.pingTick && a.closeSent == s.closeSent
            && (Alive(s) ==> a.status == Unknow || (a.status == WaitTimeout && a.reconnectTick == s.now))
            && (!Alive(s) ==> a == s)
  {
  }

  lemma AbortDo(s: State, cfg: Config, step: Step)
    requires Enabled(s, cfg, step) && IsAbort(step)
    ensures Do(s, cfg, step) == Abort(s, cfg).(pc := Do(s, cfg, step).pc, checked := Do(s, cfg, step).checked)
  {
    hide Abort, Holds, AfterConnect, AfterConnectedArm, AfterFrame, AfterHandshake, AfterClosingArm;
    match step
    case SendFails(_) =>
    case HandlerSendFails =>
    case ReadFails =>
    case PollFails =>
  }

  lemma AbortNews(s: State, cfg: Config, step: Step)
    requires Enabled(s, cfg, step) && IsAbort(step)
    ensures News(s, cfg, step) == if Alive(s) then [TransportClose, EvDisconnected] else []
    ensures AnyEnd(News(s, cfg, step)) <==> Alive(s)
    ensures var t, a := Do(s, cfg, step), Abort(s, cfg);
            && t.status == a.status && t.now == a.now && t.pingTick == a.pingTick && t.closeSent == a.closeSent
            && t.reconnectTick == a.reconnectTick
  {
    hide Abort, News, Alive, Do, Enabled;
    AbortDo(s, cfg, step);
    AbortLeaves(s, cfg);
    NewsIs(s, cfg, step, if Alive(s) then [TransportClose, EvDisconnected] else []);
    assert IsEnd([TransportClose, EvDisconnected][1]);
  }

  /** A write, read or poll that fails ends a connection: the transport is closed and DISCONNECTED follows at
      once, and the client waits to reconnect or stops, as configured. One that is over or closing is left. */
  lemma FailureEnds(s: State, cfg: Config, step: Step)
    requires Enabled(s, cfg, step)
    requires step.SendFails? || step == HandlerSendFails || step == ReadFails || step == PollFails
    ensures var t := Do(s, cfg, step);
            if s.status == Connected || s.status == Init then
              && t.hist == s.hist + [TransportClose, EvDisconnected] && !t.open
              && if cfg.autoReconnect then t.status == WaitTimeout && t.reconnectTick == s.now && t.run == s.run
                 else t.status == Unknow && !t.run
            else t.hist == s.hist && t.status == s.status && t.run == s.run
  {
    hide Do, Enabled;
    AbortDo(s, cfg, step);
  }

  lemma ConnectNews(s: State, cfg: Config, result: ConnectResult)
    requires Enabled(s, cfg, DoConnect(result))
    ensures result == Failed ==> AnyEnd(News(s, cfg, DoConnect(result)))
    ensures News(s, cfg, DoConnect(result)) == [BeforeConnect, Connect(result)]
              + (match result case Failed => [TransportClose, EvDisconnected] case Redirected => [] case Established => [EvConnected])
    ensures var t := Do(s, cfg, DoConnect(result));
            && s.status == Init && t.now == s.now && t.pingTick == s.pingTick && t.closeSent == s.closeSent
            && (result == Failed ==> t.status == Unknow || (t.status == WaitTimeout && t.reconnectTick == s.now))
            && (result != Failed ==> (t.status == Init || t.status == Connected) && t.reconnectTick == s.reconnectTick)
  {
    hide Abort, News;
    var c := s.(hist := s.hist + [BeforeConnect, Connect(result)]);
    AbortLeaves(c, cfg);
    var es := [BeforeConnect, Connect(result)]
              + (match result case Failed => [TransportClose, EvDisconnected] case Redirected => [] case Established => [EvConnected]);
    assert Do(s, cfg, DoConnect(result)).hist == s.hist + es;
    NewsIs(s, cfg, DoConnect(result), es);
    if result == Failed { assert IsEnd(es[3]); }
  }

  predicate PingIsDue(s: State, cfg: Config, t1: nat) {
    !s.closeSent && t1 - s.pingTick > 1000 * cfg.pingIntervalSec
  }

  lemma PingPart(s: State, cfg: Config, t1: nat, t2: nat, t3: nat)
    ensures var p := AfterPing(s, cfg, t1, t2, t3);
            && p.hist == s.hist + (if PingIsDue(s, cfg, t1) then [PingSent(t2, t3)] else [])
            && p.pingTick == (if PingIsDue(s, cfg, t1) then t2 else s.pingTick)
            && p.closeSent == s.closeSent && p.status == s.status
  {
  }

  lemma PongPart(s: State, cfg: Config, t1: nat, t2: nat, t3: nat, t4: nat) returns (over: bool)
    requires s.status == Connected
    ensures var p, t := AfterPing(s, cfg, t1, t2, t3), AfterConnectedArm(s, cfg, t1, t2, t3, t4);
            && t.hist == p.hist + (if over then [PongTimeout(t4), TransportClose, EvDisconnected] else [])
            && t.pingTick == p.pingTick && t.closeSent == p.closeSent && t.now == t4
            && (if over then t.status == Unknow || (t.status == WaitTimeout && t.reconnectTick == t4) else t.status == Connected)
  {
    hide Abort, AfterPing;
    PingPart(s, cfg, t1, t2, t3);
    var p := AfterPing(s, cfg, t1, t2, t3).(now := t4);
    over := !s.closeSent && p.waitForPong && t4 - p.pingpongTick > cfg.pongTimeoutSec * 1000;
    AbortLeaves(p.(hist := p.hist + [PongTimeout(t4)]), cfg);
    assert p.hist + [PongTimeout(t4)] + [TransportClose, EvDisconnected] == p.hist + [PongTimeout(t4), TransportClose, EvDisconnected];
  }

  /** What the CONNECTED arm leaves: first the PING, if it is due. */
  lemma ArmNews(s: State, cfg: Config, t1: nat, t2: nat, t3: nat, t4: nat)
    requires Enabled(s, cfg, ConnectedArm(t1, t2, t3, t4))
    ensures var t := Do(s, cfg, ConnectedArm(t1, t2, t3, t4));
            var es := News(s, cfg, ConnectedArm(t1, t2, t3, t4));
            && s.status == Connected && t.closeSent == s.closeSent && t.now == t4 && s.now <= t4
            && (t.status == Connected || t.status == Unknow || (t.status == WaitTimeout && t.reconnectTick == t4))
            && (t.status == Connected <==> !AnyEnd(es))
            && if PingIsDue(s, cfg, t1) then es != [] && es[0] == PingSent(t2, t3) && NoPing(es[1..]) && t.pingTick == t2
               else NoPing(es) && t.pingTick == s.pingTick
  {
    hide Abort, News, AfterPing, AfterConnectedArm, AfterConnect, AfterFrame, AfterHandshake;
    PingPart(s, cfg, t1, t2, t3);
    var over := PongPart(s, cfg, t1, t2, t3, t4);
    var ping := if PingIsDue(s, cfg, t1) then [PingSent(t2, t3)] else [];
    var rest := if over then [PongTimeout(t4), TransportClose, EvDisconnected] else [];
    var es := ping + rest;
    assert s.hist + ping + rest == s.hist + es;
    NewsIs(s, cfg, ConnectedArm(t1, t2, t3, t4), es);
    if over { assert IsEnd(es[|es| - 1]); }
    if ping != [] { assert es[1..] == rest; } else { assert es == rest; }
  }

  /** The steps that leave an event but no end of an attempt, and those that leave none. */
  predicate IsOther(step: Step) {
    !IsAbort(step) && !step.DoConnect? && !step.ConnectedArm? && step != CloseAndReconnect && step != CloseAndStop
  }

  /** The steps that leave an event, and no end of an attempt. */
  predicate IsEventful(step: Step) {
    step == FrameDone || step == ClosingArm || step == FinishClose
  }

  lemma QuietHist(s: State, cfg: Config, step: Step)
    requires Enabled(s, cfg, step) && IsQuiet(step)
    ensures var t := Do(s, cfg, step);
            t.hist == s.hist && t.pingTick == s.pingTick && t.run == s.run && t.closeSent == s.closeSent
  {
    hide Do, Enabled;
    QuietDo(s, cfg, step);
  }

  lemma SilentHist(s: State, cfg: Config, step: Step)
    requires Enabled(s, cfg, step) && IsOther(step) && !IsEventful(step) && !IsQuiet(step)
    ensures var t := Do(s, cfg, step);
            && t.hist == s.hist && t.pingTick == s.pingTick && (t.run ==> s.run) && (step == Enter ==> s.run)
            && t.closeSent == (s.closeSent || step == MarkCloseSent)
  {
    hide AfterConnect, AfterConnectedArm, AfterHandshake, AfterRecv, AfterFrame, AfterClosingArm, Abort, Holds;
    match step
    case Tick(_) =>
    case Stop =>
    case MarkCloseSent =>
    case CheckConnected(_) =>
    case SendDone(_) =>
    case Enter =>
    case LeaveLoop =>
    case WaitArm =>
    case IdleArm =>
    case FinishStatus =>
  }

  lemma EventHist(s: State, cfg: Config, step: Step)
    requires Enabled(s, cfg, step) && IsEventful(step)
    ensures var t := Do(s, cfg, step);
            && t.hist == s.hist + OtherEvents(s, step) && t.pingTick == s.pingTick && t.run == s.run
            && t.closeSent == (s.closeSent || step == ClosingArm)
  {
    hide AfterRecv, Holds, Abort, AfterConnect, AfterConnectedArm, AfterHandshake;
    match step
    case FrameDone => assert Do(s, cfg, step) == AfterFrame(s);
    case ClosingArm => assert Do(s, cfg, step) == AfterClosingArm(s);
    case FinishClose =>
  }

  lemma OtherHist(s: State, cfg: Config, step: Step)
    requires Enabled(s, cfg, step) && IsOther(step)
    ensures var t := Do(s, cfg, step);
            && t.hist == s.hist + OtherEvents(s, step) && t.pingTick == s.pingTick
            && (t.run ==> s.run) && (step == Enter ==> s.run)
            && t.closeSent == (s.closeSent || step == MarkCloseSent || step == ClosingArm)
  {
    hide Do, Enabled, IsOther;
    if IsEventful(step) {
      EventHist(s, cfg, step);
    } else {
      assert s.hist + OtherEvents(s, step) == s.hist;
      if IsQuiet(step) { QuietHist(s, cfg, step); } else { SilentHist(s, cfg, step); }
    }
  }

  function OtherEvents(s: State, step: Step): seq<Event> {
    match step
    case FrameDone =>
      if !s.pc.Got? then [] else if s.pc.kind == CloseFrame then [CloseIn] else if s.pc.kind == PongFrame then [PongIn] else []
    case ClosingArm => if s.closeSent then [] else [CloseEcho]
    case FinishClose => [EvFinish, TransportClose]
    case _ => []
  }

  lemma OtherNews(s: State, cfg: Config, step: Step)
    requires Enabled(s, cfg, step) && IsOther(step)
    ensures var es := News(s, cfg, step); NoPing(es) && !AnyEnd(es)
    ensures Do(s, cfg, step).pingTick == s.pingTick
  {
    hide News, Do, Enabled, IsOther;
    OtherHist(s, cfg, step);
    NewsIs(s, cfg, step, OtherEvents(s, step));
  }

  lemma ClosedNews(s: State, cfg: Config, step: Step)
    requires Enabled(s, cfg, step) && (step == CloseAndReconnect || step == CloseAndStop)
    ensures News(s, cfg, step) == if step == CloseAndReconnect then [TransportClose, EvClosed] else [EvClosed]
    ensures AnyEnd(News(s, cfg, step))
    ensures var t := Do(s, cfg, step);
            && t.pingTick == s.pingTick && t.now == s.now && t.closeSent == (s.closeSent && step == CloseAndStop)
            && (t.run ==> s.run)
            && (if step == CloseAndReconnect then t.status == WaitTimeout && t.reconnectTick == s.now else t.status == Unknow)
  {
    hide News;
    NewsIs(s, cfg, step, if step == CloseAndReconnect then [TransportClose, EvClosed] else [EvClosed]);
    assert IsEnd([TransportClose, EvClosed][1]) && IsEnd([EvClosed][0]);
  }

  predicate AnyEnd(es: seq<Event>) {
    exists i :: 0 <= i < |es| && IsEnd(es[i])
  }

  /** Only the CONNECTED arm sends a PING and moves its stamp. */
  lemma NoOtherPings(s: State, cfg: Config, step: Step)
    requires Enabled(s, cfg, step) && !step.ConnectedArm?
    ensures NoPing(News(s, cfg, step)) && Do(s, cfg, step).pingTick == s.pingTick
  {
    hide Do, News, Enabled, Abort;
    if IsAbort(step) {
      AbortNews(s, cfg, step);
      AbortLeaves(s, cfg);
    } else if step.DoConnect? {
      ConnectNews(s, cfg, step.result);
    } else if step == CloseAndReconnect || step == CloseAndStop {
      ClosedNews(s, cfg, step);
    } else {
      OtherNews(s, cfg, step);
    }
  }

  /** A CLOSE frame has been sent since the last close handshake: by a caller of close, or as an echo. */
  function CloseSentSince(steps: seq<Step>): bool {
    if steps == [] then false
    else
      match steps[|steps| - 1]
      case MarkCloseSent => true
      case ClosingArm => true
      case CloseAndReconnect => false
      case _ => CloseSentSince(steps[..|steps| - 1])
  }

  /** Any two PINGs are more than the interval apart, and none is later than `last`. */
  ghost predicate PingsApart(h: seq<Event>, cfg: Config, last: nat) {
    && (forall i :: 0 <= i < |h| && h[i].PingSent? ==> h[i].tick <= last)
    && (forall i, j :: 0 <= i < j < |h| && h[i].PingSent? && h[j].PingSent? ==>
          h[j].tick - h[i].tick > cfg.pingIntervalSec * 1000)
  }

  ghost predicate PingStamps(s: State, cfg: Config, steps: seq<Step>, u: State) {
    && u.pingTick == (match LastPing(u.hist) case Some(t) => t case None => s.pingTick)
    && u.closeSent == CloseSentSince(steps) && PingsApart(u.hist, cfg, u.pingTick)
  }

  lemma ApartMore(h: seq<Event>, es: seq<Event>, cfg: Config, last: nat)
    requires PingsApart(h, cfg, last) && NoPing(es)
    ensures PingsApart(h + es, cfg, last)
  {
    assert forall i :: 0 <= i < |h| ==> (h + es)[i] == h[i];
    assert forall i :: |h| <= i < |h + es| ==> (h + es)[i] == es[i - |h|];
  }

  lemma ApartPing(h: seq<Event>, cfg: Config, last: nat, t2: nat, t3: nat)
    requires PingsApart(h, cfg, last) && t2 - last > cfg.pingIntervalSec * 1000
    ensures PingsApart(h + [PingSent(t2, t3)], cfg, t2)
  {
    var g := h + [PingSent(t2, t3)];
    assert forall i :: 0 <= i < |h| ==> g[i] == h[i];
  }

  lemma ArmStamps(s: State, cfg: Config, steps: seq<Step>, u: State, step: Step)
    requires PingStamps(s, cfg, steps, u) && Enabled(u, cfg, step) && step.ConnectedArm?
    ensures PingStamps(s, cfg, steps + [step], Do(u, cfg, step))
  {
    hide Do, PingsApart;
    assert (steps + [step])[..|steps|] == steps;
    ArmNews(u, cfg, step.t1, step.t2, step.t3, step.t4);
    var es := News(u, cfg, step);
    if NoPing(es) {
      NoPingMore(u.hist, es);
      ApartMore(u.hist, es, cfg, u.pingTick);
    } else {
      var h := u.hist + [es[0]];
      assert es == [es[0]] + es[1..] && u.hist + es == h + es[1..];
      assert h[..|h| - 1] == u.hist;
      ApartPing(u.hist, cfg, u.pingTick, step.t2, step.t3);
      NoPingMore(h, es[1..]);
      ApartMore(h, es[1..], cfg, step.t2);
    }
  }

  /** The steps that set or clear the bit. */
  lemma SentBit(u: State, cfg: Config, steps: seq<Step>, step: Step)
    requires Enabled(u, cfg, step) && u.closeSent == CloseSentSince(steps)
    ensures Do(u, cfg, step).closeSent == CloseSentSince(steps + [step])
  {
    hide Do, Enabled, News, Abort;
    assert (steps + [step])[..|steps|] == steps;
    if IsAbort(step) {
      AbortNews(u, cfg, step);
      AbortLeaves(u, cfg);
    } else if IsOther(step) {
      OtherHist(u, cfg, step);
    } else {
      match step
      case ConnectedArm(t1, t2, t3, t4) => ArmNews(u, cfg, t1, t2, t3, t4);
      case DoConnect(result) => ConnectNews(u, cfg, result);
      case CloseAndReconnect => ClosedNews(u, cfg, step);
      case CloseAndStop => ClosedNews(u, cfg, step);
    }
  }

  lemma StampsStep(s: State, cfg: Config, steps: seq<Step>, u: State, step: Step)
    requires PingStamps(s, cfg, steps, u) && Enabled(u, cfg, step)
    ensures PingStamps(s, cfg, steps + [step], Do(u, cfg, step))
  {
    hide Do, PingsApart, CloseSentSince, LastPing;
    if step.ConnectedArm? {
      ArmStamps(s, cfg, steps, u, step);
    } else {
      SentBit(u, cfg, steps, step);
      NoOtherPings(u, cfg, step);
      NoPingMore(u.hist, News(u, cfg, step));
      ApartMore(u.hist, News(u, cfg, step), cfg, u.pingTick);
    }
  }

  /** In every run: the stamp is that of the last PING, any two PINGs are more than the interval apart, and the
      sent bit tells whether a CLOSE frame has been sent since the last close handshake. */
  lemma {:induction false} PingsInEveryRun(s: State, cfg: Config, steps: seq<Step>)
    requires Initial(s) && Exec(s, cfg, steps).Some?
    ensures PingStamps(s, cfg, steps, Exec(s, cfg, steps).value)
    decreases |steps|
  {
    hide Do, Enabled, PingStamps;
    if steps == [] {
      NoPings(s, cfg);
    } else {
      var init, step := steps[..|steps| - 1], steps[|steps| - 1];
      PingsInEveryRun(s, cfg, init);
      StampsStep(s, cfg, init, Exec(s, cfg, init).value, step);
      assert steps == init + [step];
    }
  }

  lemma NoPings(s: State, cfg: Config)
    requires Initial(s)
    ensures PingStamps(s, cfg, [], s)
  {
  }

  /** In every run the CONNECTED arm, at t1, sends a PING if and only if no CLOSE frame has been sent and more
      than the interval has passed since the last PING, or since the stamp that the client started with. */
  lemma {:induction false} PingExactly(s: State, cfg: Config, steps: seq<Step>, t1: nat, t2: nat, t3: nat, t4: nat)
    requires Initial(s) && Exec(s, cfg, steps).Some?
    requires Enabled(Exec(s, cfg, steps).value, cfg, ConnectedArm(t1, t2, t3, t4))
    ensures var u := Exec(s, cfg, steps).value;
            var es := News(u, cfg, ConnectedArm(t1, t2, t3, t4));
            var last := match LastPing(u.hist) case Some(t) => t case None => s.pingTick;
            if !CloseSentSince(steps) && t1 - last > 1000 * cfg.pingIntervalSec
            then es != [] && es[0] == PingSent(t2, t3) && NoPing(es[1..])
            else NoPing(es)
  {
    hide Exec, Do, Enabled, PingsApart;
    PingsInEveryRun(s, cfg, steps);
    ArmNews(Exec(s, cfg, steps).value, cfg, t1, t2, t3, t4);
  }

  // The wait before the next connect.

  /** When the last end event of the run came. */
  function EndTime(s: State, cfg: Config, steps: seq<Step>): Option<nat>
    requires Exec(s, cfg, steps).Some?
  {
    if steps == [] then None
    else
      var init, step := steps[..|steps| - 1], steps[|steps| - 1];
      var u := Exec(s, cfg, init).value;
      if AnyEnd(News(u, cfg, step)) then Some(Do(u, cfg, step).now) else EndTime(s, cfg, init)
  }

  /** An attempt that ended at `at` is over for as long as the wait takes. */
  predicate Waits(u: State, cfg: Config, at: nat) {
    && at <= u.now && (u.status == WaitTimeout ==> at <= u.reconnectTick)
    && (u.status == Init || u.status == Connected ==> u.now - at > cfg.waitTimeoutMs)
  }

  /** A step that ends an attempt leaves the client waiting from now on, or for good. */
  lemma EndStarts(u: State, cfg: Config, step: Step)
    requires Enabled(u, cfg, step) && AnyEnd(News(u, cfg, step))
    ensures var t := Do(u, cfg, step);
            t.status == Unknow || (t.status == WaitTimeout && t.reconnectTick == t.now)
  {
    hide News, Do, Enabled, Abort;
    match step
    case ConnectedArm(t1, t2, t3, t4) => ArmNews(u, cfg, t1, t2, t3, t4);
    case DoConnect(result) => ConnectNews(u, cfg, result);
    case CloseAndReconnect => ClosedNews(u, cfg, step);
    case CloseAndStop => ClosedNews(u, cfg, step);
    case _ => if IsAbort(step) { AbortNews(u, cfg, step); AbortLeaves(u, cfg); } else { OtherNews(u, cfg, step); }
  }

  /** The other steps: the wait ends when its time is over, and nothing else starts or ends one. */
  lemma OtherFields(u: State, cfg: Config, step: Step)
    requires Enabled(u, cfg, step) && IsOther(step)
    ensures var t := Do(u, cfg, step);
            if step == WaitArm then
              && u.status == WaitTimeout && t.now == u.now
              && (if u.now - u.reconnectTick > cfg.waitTimeoutMs then t.status == Init
                  else t.status == WaitTimeout && t.reconnectTick == u.reconnectTick)
            else
              && t.reconnectTick == u.reconnectTick && u.now <= t.now
              && (t.status == u.status || t.status == Closing || t.status == Unknow)
  {
    hide Abort, AfterConnect, AfterConnectedArm, AfterHandshake, AfterRecv, Holds;
  }

  lemma OtherWaits(u: State, cfg: Config, step: Step, at: nat)
    requires Enabled(u, cfg, step) && Waits(u, cfg, at) && IsOther(step)
    ensures Waits(Do(u, cfg, step), cfg, at)
  {
    hide Do, Enabled, IsOther;
    OtherFields(u, cfg, step);
  }

  lemma OtherTick(u: State, cfg: Config, step: Step)
    requires Enabled(u, cfg, step) && IsOther(step)
    ensures Do(u, cfg, step).status == WaitTimeout ==>
              u.status == WaitTimeout && Do(u, cfg, step).reconnectTick == u.reconnectTick
  {
    hide Do, Enabled, IsOther;
    OtherFields(u, cfg, step);
  }

  lemma WaitStep(u: State, cfg: Config, step: Step, at: nat)
    requires Enabled(u, cfg, step) && Waits(u, cfg, at)
    ensures Waits(Do(u, cfg, step), cfg, at)
  {
    hide News, Do, Enabled, Abort;
    if IsOther(step) {
      OtherWaits(u, cfg, step, at);
    } else {
      match step
      case ConnectedArm(t1, t2, t3, t4) => ArmNews(u, cfg, t1, t2, t3, t4);
      case DoConnect(result) => ConnectNews(u, cfg, result);
      case CloseAndReconnect => ClosedNews(u, cfg, step);
      case CloseAndStop => ClosedNews(u, cfg, step);
      case _ => AbortNews(u, cfg, step); AbortLeaves(u, cfg);
    }
  }

  /** An abort that finds nothing to end changes nothing. */
  lemma DeadAbort(u: State, cfg: Config, step: Step)
    requires Enabled(u, cfg, step) && IsAbort(step) && !AnyEnd(News(u, cfg, step))
    ensures Do(u, cfg, step).status == u.status && Do(u, cfg, step).reconnectTick == u.reconnectTick
  {
    hide Do, Enabled, News, Abort, AnyEnd;
    AbortNews(u, cfg, step);
    AbortLeaves(u, cfg);
  }

  lemma NoEndKeeps(u: State, cfg: Config, step: Step)
    requires Enabled(u, cfg, step) && !AnyEnd(News(u, cfg, step))
    ensures Do(u, cfg, step).status == WaitTimeout ==>
              u.status == WaitTimeout && Do(u, cfg, step).reconnectTick == u.reconnectTick
  {
    hide Do, Enabled, News, AnyEnd, Abort;
    if IsAbort(step) {
      DeadAbort(u, cfg, step);
    } else if IsOther(step) {
      OtherTick(u, cfg, step);
    } else {
      match step
      case ConnectedArm(t1, t2, t3, t4) => ArmNews(u, cfg, t1, t2, t3, t4);
      case DoConnect(result) => ConnectNews(u, cfg, result);
      case CloseAndReconnect => ClosedNews(u, cfg, step);
      case CloseAndStop => ClosedNews(u, cfg, step);
    }
  }

  /** In every run: while the client waits, its stamp is the time of the last end event. */
  lemma {:induction false} WaitsSinceEnd(s: State, cfg: Config, steps: seq<Step>)
    requires Initial(s) && Exec(s, cfg, steps).Some?
    ensures var u := Exec(s, cfg, steps).value;
            u.status == WaitTimeout ==> EndTime(s, cfg, steps) == Some(u.reconnectTick)
    decreases |steps|
  {
    hide Do, Enabled, News, AnyEnd;
    if steps != [] {
      var init, step := steps[..|steps| - 1], steps[|steps| - 1];
      WaitsSinceEnd(s, cfg, init);
      var u := Exec(s, cfg, init).value;
      if AnyEnd(News(u, cfg, step)) { EndStarts(u, cfg, step); } else { NoEndKeeps(u, cfg, step); }
    }
  }

  /** In every run the WAIT_TIMEOUT arm goes on to connect if and only if more than the wait has passed since the
      last end event. */
  lemma WaitExactly(s: State, cfg: Config, steps: seq<Step>)
    requires Initial(s) && Exec(s, cfg, steps).Some? && Enabled(Exec(s, cfg, steps).value, cfg, WaitArm)
    ensures var u := Exec(s, cfg, steps).value;
            && EndTime(s, cfg, steps).Some?
            && Do(u, cfg, WaitArm).status
               == if u.now - EndTime(s, cfg, steps).value > cfg.waitTimeoutMs then Init else WaitTimeout
  {
    hide Exec, EndTime;
    WaitsSinceEnd(s, cfg, steps);
  }

  lemma {:induction false} WaitRun(s: State, cfg: Config, steps: seq<Step>, n: nat, at: nat)
    requires Exec(s, cfg, steps).Some? && n <= |steps|
    requires Exec(s, cfg, steps[..n]).Some? ==> Waits(Exec(s, cfg, steps[..n]).value, cfg, at)
    ensures Exec(s, cfg, steps[..n]).Some? && Waits(Exec(s, cfg, steps).value, cfg, at)
    decreases |steps|
  {
    hide Do, Enabled, Waits;
    if n == |steps| {
      assert steps[..n] == steps;
    } else {
      var init := steps[..|steps| - 1];
      assert init[..n] == steps[..n];
      WaitRun(s, cfg, init, n, at);
      WaitStep(Exec(s, cfg, init).value, cfg, steps[|steps| - 1], at);
    }
  }

  /** In every run: between the end of an attempt, by whatever step n, and any later transport connect more than
      the wait passes. */
  lemma ReconnectWaits(s: State, cfg: Config, steps: seq<Step>, n: nat, result: ConnectResult)
    requires Exec(s, cfg, steps).Some? && n < |steps| && Exec(s, cfg, steps[..n]).Some? && Exec(s, cfg, steps[..n + 1]).Some?
    requires Enabled(Exec(s, cfg, steps[..n]).value, cfg, steps[n])
    requires AnyEnd(News(Exec(s, cfg, steps[..n]).value, cfg, steps[n]))
    requires Enabled(Exec(s, cfg, steps).value, cfg, DoConnect(result))
    ensures Exec(s, cfg, steps).value.now - Exec(s, cfg, steps[..n + 1]).value.now > cfg.waitTimeoutMs
  {
    hide Do, News, AnyEnd;
    var u := Exec(s, cfg, steps[..n]).value;
    assert steps[..n + 1][..n] == steps[..n];
    EndStarts(u, cfg, steps[n]);
    WaitRun(s, cfg, steps, n + 1, Exec(s, cfg, steps[..n + 1]).value.now);
  }

  // Stopping.

  /** In every run: once stop has been called, or the client has stopped itself, the loop is not entered again. */
  lemma {:induction false} StoppedForGood(s: State, cfg: Config, steps: seq<Step>, n: nat, k: nat)
    requires Exec(s, cfg, steps).Some? && n <= k < |steps|
    requires Exec(s, cfg, steps[..n]).Some? && !Exec(s, cfg, steps[..n]).value.run
    ensures steps[k] != Enter && !Exec(s, cfg, steps).value.run
    decreases |steps|
  {
    var init, step := steps[..|steps| - 1], steps[|steps| - 1];
    assert init[..n] == steps[..n];
    if n < |init| {
      StoppedForGood(s, cfg, init, n, if k < |init| then k else n);
    } else {
      assert init == steps[..n];
    }
    NeverRunsAgain(Exec(s, cfg, init).value, cfg, step);
  }

  lemma NeverRunsAgain(u: State, cfg: Config, step: Step)
    requires Enabled(u, cfg, step) && !u.run
    ensures !Do(u, cfg, step).run && step != Enter
  {
    hide Do, Enabled, News, Abort;
    if IsAbort(step) {
      AbortNoRun(u, cfg);
      AbortDo(u, cfg, step);
    } else if IsOther(step) {
      OtherHist(u, cfg, step);
    } else {
      match step
      case ConnectedArm(t1, t2, t3, t4) => ArmNoRun(u, cfg, step);
      case DoConnect(result) => ArmNoRun(u, cfg, step);
      case CloseAndReconnect => ClosedNews(u, cfg, step);
      case CloseAndStop => ClosedNews(u, cfg, step);
    }
  }

  lemma AbortNoRun(u: State, cfg: Config)
    requires !u.run
    ensures !Abort(u, cfg).run
  {
  }

  lemma ArmNoRun(u: State, cfg: Config, step: Step)
    requires Enabled(u, cfg, step) && !u.run && (step.ConnectedArm? || step.DoConnect?)
    ensures !Do(u, cfg, step).run
  {
    hide Abort;
    match step
    case ConnectedArm(t1, t2, t3, t4) =>
      var p := AfterPing(u, cfg, t1, t2, t3).(now := t4);
      AbortNoRun(p.(hist := p.hist + [PongTimeout(t4)]), cfg);
    case DoConnect(result) =>
      AbortNoRun(u.(hist := u.hist + [BeforeConnect, Connect(result)]), cfg);
  }

  lemma {:induction false} RunPrefix(s: State, cfg: Config, steps: seq<Step>, n: nat)
    requires Exec(s, cfg, steps).Some? && n < |steps|
    ensures Exec(s, cfg, steps[..n]).Some? && Exec(s, cfg, steps[..n + 1]).Some?
    ensures Enabled(Exec(s, cfg, steps[..n]).value, cfg, steps[n])
    ensures Exec(s, cfg, steps[..n + 1]).value == Do(Exec(s, cfg, steps[..n]).value, cfg, steps[n])
    decreases |steps|
  {
    hide Do, Enabled;
    var init := steps[..|steps| - 1];
    if n < |init| {
      RunPrefix(s, cfg, init, n);
      assert init[..n] == steps[..n] && init[..n + 1] == steps[..n + 1];
    } else {
      assert steps[..n] == init && steps[..n + 1] == steps;
    }
  }

  /** In every run: after a call of stop in step n the loop is not entered again. */
  lemma StopEnds(s: State, cfg: Config, steps: seq<Step>, n: nat, k: nat)
    requires Exec(s, cfg, steps).Some? && n < k < |steps| && steps[n] == Stop
    ensures steps[k] != Enter
  {
    hide Exec, Do, Enabled;
    RunPrefix(s, cfg, steps, n);
    Stops(Exec(s, cfg, steps[..n]).value, cfg);
    StoppedForGood(s, cfg, steps, n + 1, k);
  }

  lemma Stops(u: State, cfg: Config)
    ensures !Do(u, cfg, Stop).run
  {
  }
}
