/** Time in the actuator task, in every run: how long a timed output lasts, and when the watchdog takes a fan
    that is held by hand away. */
module ActuatorTiming {
  import opened Actuator
  import opened Bytes
  import opened FanWatchdog
  import opened Options
  import opened Ticks

  /** BUZZER_ON, FAN_ON or LED_ALARM_ON with a duration. */
  predicate Timed(m: Msg) {
    (m.cmd == BuzzerOn || m.cmd == FanOn || m.cmd == AlarmOn) && m.duration > 0
  }

  function Output(m: Msg): Device {
    match m.cmd
    case FanOn => Fan
    case AlarmOn => AlarmLed
    case _ => Buzzer
  }

  /** What is left of a timed command once its time is over. */
  function Ending(m: Msg): seq<Op> {
    if m.cmd == FanOn then [ReleaseFan] else Switch(Output(m), false)
  }

  lemma TimedProgram(m: Msg)
    requires Timed(m)
    ensures Program(m) == [SetPin(Output(m), true), SetVar(Output(m), true), Delay(m.duration)] + Ending(m)
  {
    if m.cmd != FanOn {
      assert Switch(Output(m), true) + ([Delay(m.duration)] + Ending(m))
          == [SetPin(Output(m), true), SetVar(Output(m), true), Delay(m.duration)] + Ending(m);
    }
  }

  predicate IsOn(u: State, d: Device) {
    Get(u.vars, d) && Get(u.pins, d) == Level(d, true)
  }

  /** The command is about to switch its output on, has set its pin, or has done so for good. */
  predicate SwitchingOn(u: State, m: Msg) {
    var d, rest := Output(m), [Delay(m.duration)] + Ending(m);
    || u.todo == [SetPin(d, true), SetVar(d, true)] + rest
    || (u.todo == [SetVar(d, true)] + rest && Get(u.pins, d) == Level(d, true))
    || SetVar(d, true) !in u.todo
  }

  /** The output has been on since `at`, and stays so for its time. */
  predicate Lasting(u: State, m: Msg, at: nat) {
    || u.now >= at + m.duration
    || (u.now >= at && IsOn(u, Output(m)) && u.phase == Running
        && (u.todo == [Delay(m.duration)] + Ending(m) ||
            (u.todo != [] && u.todo[0].Sleep? && u.todo == [u.todo[0]] + Ending(m) && u.todo[0].until >= at + m.duration)))
  }

  lemma OpAddsNone(u: State, d: Device)
    requires u.todo != [] && SetVar(d, true) !in u.todo
    ensures SetVar(d, true) !in RunOp(u).todo
  {
    assert forall o :: o in u.todo[1..] ==> o in u.todo;
  }

  lemma SwitchingOp(u: State, m: Msg)
    requires u.todo != [] && Timed(m) && SwitchingOn(u, m)
    ensures SwitchingOn(RunOp(u), m)
  {
    var d, rest := Output(m), [Delay(m.duration)] + Ending(m);
    if SetVar(d, true) !in u.todo {
      OpAddsNone(u, d);
    } else {
      assert ([SetPin(d, true), SetVar(d, true)] + rest)[1..] == [SetVar(d, true)] + rest;
      assert ([SetVar(d, true)] + rest)[1..] == rest && SetVar(d, true) !in rest;
    }
  }

  lemma SwitchingStep(u: State, timing: Timing, step: Step, m: Msg)
    requires Enabled(u, timing, step) && step != Receive && Timed(m) && SwitchingOn(u, m)
    ensures SwitchingOn(Do(u, timing, step), m)
  {
    hide Elapsed, Produced, RunOp, Level, Get;
    if step == Next {
      SwitchingOp(u, m);
    } else if step == Check {
      assert SetVar(Output(m), true) !in FanReset() && SetVar(Output(m), true) !in u.todo;
    }
  }

  /** The wait of the output begins, or may end. */
  lemma LastingOp(u: State, m: Msg, at: nat)
    requires u.todo != [] && Timed(m) && Lasting(u, m, at) && (u.todo[0].Sleep? ==> u.now >= u.todo[0].until)
    ensures Lasting(RunOp(u), m, at)
  {
    if u.now < at + m.duration {
      assert u.todo == [Delay(m.duration)] + Ending(m);
      assert u.todo[1..] == Ending(m);
    }
  }

  lemma LastingStep(u: State, timing: Timing, step: Step, m: Msg, at: nat)
    requires Enabled(u, timing, step) && Timed(m) && Lasting(u, m, at)
    ensures Lasting(Do(u, timing, step), m, at)
  {
    hide Elapsed, Produced, Program, RunOp;
    if step == Next {
      LastingOp(u, m, at);
    }
  }

  lemma {:induction false} SwitchingRun(s: State, timing: Timing, steps: seq<Step>, n: nat)
    requires Exec(s, timing, steps).Some? && n < |steps| && steps[n] == Receive
    requires forall i :: n < i < |steps| ==> steps[i] != Receive
    ensures Exec(s, timing, steps[..n]).Some? && Exec(s, timing, steps[..n]).value.queue != []
    ensures var m := Exec(s, timing, steps[..n]).value.queue[0];
            Timed(m) ==> SwitchingOn(Exec(s, timing, steps).value, m)
    decreases |steps|
  {
    hide Enabled, SwitchingOn;
    var init, step := steps[..|steps| - 1], steps[|steps| - 1];
    assert init[..n] == steps[..n];
    var u := Exec(s, timing, init).value;
    if n == |init| {
      assert steps[..n] == init;
      Received(u, timing);
    } else {
      SwitchingRun(s, timing, init, n);
      var m := Exec(s, timing, steps[..n]).value.queue[0];
      if Timed(m) { SwitchingStep(u, timing, step, m); }
    }
  }

  lemma Received(u: State, timing: Timing)
    requires Enabled(u, timing, Receive)
    ensures u.queue != [] && (Timed(u.queue[0]) ==> SwitchingOn(Do(u, timing, Receive), u.queue[0]))
  {
    var m := u.queue[0];
    if Timed(m) {
      TimedProgram(m);
      assert [SetPin(Output(m), true), SetVar(Output(m), true), Delay(m.duration)] + Ending(m)
          == [SetPin(Output(m), true), SetVar(Output(m), true)] + ([Delay(m.duration)] + Ending(m));
    }
  }

  /** The access that records the output as on. */
  lemma OnFromNow(u: State, timing: Timing, m: Msg)
    requires Timed(m) && SwitchingOn(u, m) && Enabled(u, timing, Next) && u.todo[0] == SetVar(Output(m), true)
    requires u.phase == Running
    ensures Lasting(Do(u, timing, Next), m, u.now)
  {
    var rest := [Delay(m.duration)] + Ending(m);
    assert u.todo == [SetVar(Output(m), true)] + rest;
    assert u.todo[1..] == rest;
  }

  lemma {:induction false} LastingRun(s: State, timing: Timing, steps: seq<Step>, k: nat, m: Msg, at: nat)
    requires Exec(s, timing, steps).Some? && k <= |steps| && Timed(m)
    requires Exec(s, timing, steps[..k]).Some? ==> Lasting(Exec(s, timing, steps[..k]).value, m, at)
    ensures Lasting(Exec(s, timing, steps).value, m, at)
    decreases |steps|
  {
    hide Do, Enabled, Lasting;
    if k == |steps| {
      assert steps[..k] == steps;
    } else {
      var init := steps[..|steps| - 1];
      assert init[..k] == steps[..k];
      LastingRun(s, timing, init, k, m, at);
      LastingStep(Exec(s, timing, init).value, timing, steps[|steps| - 1], m, at);
    }
  }

  lemma {:induction false} ExecPrefix(s: State, timing: Timing, steps: seq<Step>, n: nat)
    requires Exec(s, timing, steps).Some? && n < |steps|
    ensures Exec(s, timing, steps[..n]).Some? && Exec(s, timing, steps[..n + 1]).Some?
    ensures Enabled(Exec(s, timing, steps[..n]).value, timing, steps[n])
    ensures Exec(s, timing, steps[..n + 1]).value == Do(Exec(s, timing, steps[..n]).value, timing, steps[n])
    decreases |steps|
  {
    hide Do, Enabled;
    var init := steps[..|steps| - 1];
    if n < |init| {
      ExecPrefix(s, timing, init, n);
      assert init[..n] == steps[..n] && init[..n + 1] == steps[..n + 1];
    } else {
      assert steps[..n] == init && steps[..n + 1] == steps;
    }
  }

  /** In every run: from the access k with which a timed command, received in step n, records its output as on,
      the pin and the record stay on until its duration has passed, whatever the other tasks do. */
  lemma TimedOutputLasts(s: State, timing: Timing, steps: seq<Step>, n: nat, k: nat)
    requires Initial(s) && Exec(s, timing, steps).Some? && n < k < |steps|
    requires steps[n] == Receive && steps[k] == Next && forall i :: n < i < k ==> steps[i] != Receive
    requires Exec(s, timing, steps[..n]).Some? && Exec(s, timing, steps[..k]).Some?
    requires Exec(s, timing, steps[..n]).value.queue != [] && Exec(s, timing, steps[..k]).value.todo != []
    requires var m := Exec(s, timing, steps[..n]).value.queue[0];
             && (m.cmd == BuzzerOn || m.cmd == FanOn || m.cmd == AlarmOn) && m.duration > 0
             && Exec(s, timing, steps[..k]).value.todo[0] == SetVar(Output(m), true)
    ensures var m := Exec(s, timing, steps[..n]).value.queue[0];
            var u, v := Exec(s, timing, steps[..k]).value, Exec(s, timing, steps).value;
            v.now < u.now + m.duration ==> Get(v.vars, Output(m)) && Get(v.pins, Output(m)) == Level(Output(m), true)
  {
    hide Exec, Do, Enabled;
    var m := Exec(s, timing, steps[..n]).value.queue[0];
    var run := steps[..k];
    ExecPrefix(s, timing, steps, k);
    assert run[..n] == steps[..n];
    SwitchingRun(s, timing, run, n);
    var u := Exec(s, timing, run).value;
    PhaseRun(s, timing, run);
    OnFromNow(u, timing, m);
    LastingRun(s, timing, steps, k + 1, m, u.now);
  }

  /** Only a command and the watchdog have accesses left. */
  lemma {:induction false} PhaseRun(s: State, timing: Timing, steps: seq<Step>)
    requires Initial(s) && Exec(s, timing, steps).Some?
    ensures PhaseInv(Exec(s, timing, steps).value)
    decreases |steps|
  {
    hide Do, Enabled, PhaseInv;
    if steps == [] {
      InitialPhase(s);
    } else {
      PhaseRun(s, timing, steps[..|steps| - 1]);
      PhaseStep(Exec(s, timing, steps[..|steps| - 1]).value, timing, steps[|steps| - 1]);
    }
  }

  predicate PhaseInv(u: State) {
    && (u.phase != Running && u.phase != Clearing ==> u.todo == [])
    && (u.phase == Clearing ==> forall o :: o in u.todo ==> o != ReleaseFan && !(o.SetVar? && o.on) && !o.Delay?)
  }

  lemma InitialPhase(s: State)
    requires Initial(s)
    ensures PhaseInv(s)
  {
  }

  lemma PhaseStep(u: State, timing: Timing, step: Step)
    requires PhaseInv(u) && Enabled(u, timing, step)
    ensures PhaseInv(Do(u, timing, step))
  {
    hide Elapsed, Produced, Program;
    if step == Next { assert forall o :: o in u.todo[1..] ==> o in u.todo; }
  }

  /** While the task has accesses left, only they change them. */
  lemma TodoKept(u: State, timing: Timing, step: Step)
    requires PhaseInv(u) && Enabled(u, timing, step) && u.todo != [] && step != Next
    ensures Do(u, timing, step).todo == u.todo && Do(u, timing, step).phase == u.phase
  {
    hide Produced, Program, Elapsed;
  }

  lemma WaitBegins(u: State, timing: Timing, ms: nat)
    requires Enabled(u, timing, Next) && u.todo[0] == Delay(ms)
    ensures Do(u, timing, Next).todo == [Sleep(u.now + ms)] + u.todo[1..] && Do(u, timing, Next).phase == u.phase
    ensures Do(u, timing, Next).now == u.now
  {
  }

  /** In every run: a wait of ms that begins in step j can end if and only if ms have passed. */
  lemma {:induction false} WaitsExactly(s: State, timing: Timing, steps: seq<Step>, j: nat, ms: nat)
    requires Initial(s) && Exec(s, timing, steps).Some? && j < |steps| && steps[j] == Next
    requires Exec(s, timing, steps[..j]).Some? && Exec(s, timing, steps[..j]).value.todo != []
    requires Exec(s, timing, steps[..j]).value.todo[0] == Delay(ms) && forall i :: j < i < |steps| ==> steps[i] != Next
    ensures var u, v := Exec(s, timing, steps[..j]).value, Exec(s, timing, steps).value;
            && v.todo == [Sleep(u.now + ms)] + u.todo[1..] && v.phase == u.phase
            && (Enabled(v, timing, Next) <==> v.now - u.now >= ms)
    decreases |steps|
  {
    hide Do, Enabled;
    var init, step := steps[..|steps| - 1], steps[|steps| - 1];
    assert init[..j] == steps[..j];
    var u, v := Exec(s, timing, steps[..j]).value, Exec(s, timing, steps).value;
    if j == |init| {
      assert steps[..j] == init;
      WaitBegins(u, timing, ms);
    } else {
      WaitsExactly(s, timing, init, j, ms);
      PhaseRun(s, timing, init);
      TodoKept(Exec(s, timing, init).value, timing, step);
    }
    SleepEnds(v, timing, u.now + ms);
  }

  lemma SleepEnds(v: State, timing: Timing, until: nat)
    requires v.todo != [] && v.todo[0] == Sleep(until)
    ensures Enabled(v, timing, Next) <==> v.now >= until
  {
  }

  // The watchdog.

  /** While the watchdog looks at the stamp, it is the clock at `sinceAt`. */
  predicate StampInv(u: State) {
    && u.sinceAt <= u.now && (u.since != 0 ==> u.since == Clock(u.sinceAt))
    && (u.monitor.Stamping? ==> u.monitor.at <= u.now)
    && (u.phase == AtClock ==> u.since == Clock(u.sinceAt))
    && (u.phase.AtStamp? ==> u.since == Clock(u.sinceAt) && u.phase.t <= u.now)
  }

  lemma StampStep(u: State, timing: Timing, step: Step)
    requires StampInv(u) && PhaseInv(u) && Enabled(u, timing, step)
    ensures StampInv(Do(u, timing, step))
  {
    hide Elapsed, Produced, Program, Clock;
  }

  lemma {:induction false} StampRun(s: State, timing: Timing, steps: seq<Step>)
    requires Initial(s) && Exec(s, timing, steps).Some?
    ensures StampInv(Exec(s, timing, steps).value)
    decreases |steps|
  {
    hide Do, Enabled, PhaseInv, StampInv;
    if steps == [] {
      InitialStamp(s);
    } else {
      var init := steps[..|steps| - 1];
      StampRun(s, timing, init);
      PhaseRun(s, timing, init);
      StampStep(Exec(s, timing, init).value, timing, steps[|steps| - 1]);
    }
  }

  lemma InitialStamp(s: State)
    requires Initial(s)
    ensures StampInv(s)
  {
  }

  lemma WrappedSince(t: nat, at: nat)
    requires t < at <= t + TWO32
    ensures Since(t, Clock(at)) == if at == t + TWO32 then 0 else TWO32 - (at - t)
  {
    var d := at - t;
    assert Clock(at) == (Clock(t) + d) % TWO32;
  }

  /** In every run: a watchdog check that has read the clock at t takes the fan away if and only if the stamp is
      then 30 s old; but a stamp that was set after that reading always counts as old. */
  lemma ClearsExactly(s: State, timing: Timing, steps: seq<Step>)
    requires Initial(s) && Exec(s, timing, steps).Some? && Exec(s, timing, steps).value.phase.AtStamp?
    ensures var u := Exec(s, timing, steps).value;
            var t, clears := u.phase.t, RunCheck(u).phase == Clearing;
            && (u.sinceAt <= t < u.sinceAt + TWO32 ==> (clears <==> t - u.sinceAt >= 30000))
            && (t < u.sinceAt <= t + TWO32 - 30000 ==> clears)
            && (clears ==> RunCheck(u).todo == [SetPin(Fan, false), SetVar(Fan, false), ManualOff, SinceZero])
  {
    hide Exec, Clock, Since;
    StampRun(s, timing, steps);
    var u := Exec(s, timing, steps).value;
    var t := u.phase.t;
    if u.sinceAt <= t { SinceExact(t, u.sinceAt); } else if u.sinceAt <= t + TWO32 { WrappedSince(t, u.sinceAt); }
    assert FanReset() == [SetPin(Fan, false), SetVar(Fan, false), ManualOff, SinceZero];
  }

  // Such a stamp does get set.

  /** The check has read the clock when button 2 stores a new stamp over an old one. */
  lemma StampedLate(s: State) returns (run: seq<Step>, u: State)
    requires Initial(s) && Clock(s.now) == 1
    ensures Exec(s, WitnessTiming(), run) == Some(u) && u.phase == Clearing && u.todo == FanReset()
    ensures u.sinceAt == u.now && u.since != 0 && u.manual && u.monitor == Posting(Msg(FanOn, 0)) && u.queue == []
  {
    hide Exec, RunOp, Program;
    var timing := WitnessTiming();
    run, u := FanOffAgain(s);
    assert u.queue == [];
    run, u := Extend(s, timing, run, u, Press);
    run, u := Extend(s, timing, run, u, WriteManual);
    run, u := Extend(s, timing, run, u, ReceiveNothing);
    run, u := Extend(s, timing, run, u, Check);
    run, u := Extend(s, timing, run, u, Check);
    run, u := Extend(s, timing, run, u, Check);
    run, u := Extend(s, timing, run, u, Tick(1));
    run, u := Extend(s, timing, run, u, ReadStamp);
    run, u := Extend(s, timing, run, u, WriteStamp);
    assert u.phase == AtStamp(s.now + 7000) && u.since == 7002;
    run, u := Extend(s, timing, run, u, Check);
  }

  /** The watchdog then resets a fan that button 2 has just switched on, and the FAN_ON that follows switches it
      on with nothing left to switch it off. */
  lemma {:induction false} ClearedTooEarly(s: State) returns (run: seq<Step>)
    requires Initial(s) && Clock(s.now) == 1
    ensures Exec(s, WitnessTiming(), run).Some?
    ensures var u := Exec(s, WitnessTiming(), run).value;
            u.vars.fan && !u.manual && u.since == 0 && u.todo == [] && u.queue == [] && u.monitor == Idle
  {
    hide Exec, RunCheck, Program;
    var timing := WitnessTiming();
    var u: State;
    run, u := StampedLate(s);
    run, u := Extend(s, timing, run, u, Next);
    run, u := Extend(s, timing, run, u, Next);
    run, u := Extend(s, timing, run, u, Next);
    run, u := Extend(s, timing, run, u, Next);
    run, u := SwitchesOn(s, run, u);
  }

  lemma SwitchesOn(s: State, run: seq<Step>, u: State) returns (run': seq<Step>, u': State)
    requires Exec(s, WitnessTiming(), run) == Some(u) && u.phase == Clearing && u.todo == [] && u.queue == []
    requires u.monitor == Posting(Msg(FanOn, 0)) && !u.manual && u.since == 0
    ensures Exec(s, WitnessTiming(), run') == Some(u')
    ensures u'.vars.fan && !u'.manual && u'.since == 0 && u'.todo == [] && u'.queue == [] && u'.monitor == Idle
  {
    hide Exec;
    var timing := WitnessTiming();
    run', u' := Extend(s, timing, run, u, Check);
    run', u' := Extend(s, timing, run', u', PostPress);
    assert u'.queue == [Msg(FanOn, 0)];
    run', u' := Extend(s, timing, run', u', Receive);
    run', u' := Extend(s, timing, run', u', Next);
    run', u' := Extend(s, timing, run', u', Next);
  }
}
