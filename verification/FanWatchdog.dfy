/** The watchdog on a fan that button 2 has switched on, in every run of the actuator machine. */
module FanWatchdog {
  import opened Actuator
  import opened Bytes
  import opened Options
  import opened Ticks

  /** The monitoring task has set the flag and not yet the stamp. */
  predicate MidPress(m: Monitor) {
    m.Pressed? || m.Stamping?
  }

  /** The stamp was younger than the timeout at time `from`, give or take the delay of storing it. */
  predicate YoungStamp(s: State, timing: Timing, from: nat) {
    s.since == 0 || s.sinceAt + 30000 + timing.store > from
  }

  /** So is that of a fan held by hand; with `lenient`, the time between flag and stamp is left out. */
  predicate Fresh(s: State, timing: Timing, from: nat, lenient: bool) {
    s.manual && !(lenient && MidPress(s.monitor)) ==> YoungStamp(s, timing, from)
  }

  /** The flag is set over a stamp that was too old when the last watchdog check began. */
  predicate StaleWrite(s: State, timing: Timing, step: Step) {
    step == WriteManual && !YoungStamp(s, timing, s.mark)
  }

  /** One actuator iteration, one store and the timeout together do not wrap the clock. */
  predicate Moderate(timing: Timing) {
    FAN_MANUAL_TIMEOUT_S * 1000 + timing.store + timing.iteration < TWO32
  }

  predicate WatchInv(s: State, timing: Timing, lenient: bool) {
    && s.sinceAt <= s.now && s.mark <= s.now <= s.mark + timing.iteration
    && (s.since != 0 ==> s.since == Clock(s.sinceAt))
    && (s.monitor.Stamping? ==> s.monitor.at <= s.now <= s.monitor.at + timing.store)
    && Fresh(s, timing, s.mark, lenient)
    && CheckInv(s, timing)
  }

  /** The check in progress, once it has seen the flag; having cleared the stamp, it leaves only a new one. */
  predicate CheckInv(s: State, timing: Timing) {
    match s.phase
    case Waiting => s.todo == []
    case Running => true
    case AtSince => s.todo == [] && s.manual && s.mark <= s.checkStart <= s.now
    case AtClock => s.todo == [] && s.manual && s.mark <= s.checkStart <= s.now
    case AtStamp(t) => s.todo == [] && s.manual && s.mark <= s.checkStart <= t <= s.now
    case Clearing =>
      && s.mark <= s.checkStart <= s.now
      && (forall i :: 0 <= i < |s.todo| ==> s.todo[i] != ReleaseFan)
      && (if s.todo == [] then YoungStamp(s, timing, s.checkStart) else s.todo[|s.todo| - 1] == SinceZero)
  }

  lemma CheckKeeps(s: State, timing: Timing, lenient: bool)
    requires WatchInv(s, timing, lenient) && s.phase != Waiting && s.todo == [] && Moderate(timing)
    ensures WatchInv(RunCheck(s), timing, lenient)
  {
    hide Since, Clock;
    if s.phase.AtStamp? && s.sinceAt <= s.phase.t && s.since != 0 && Fresh(s, timing, s.mark, lenient) {
      if !(lenient && MidPress(s.monitor)) { SinceExact(s.phase.t, s.sinceAt); }
    }
  }

  lemma OpKeeps(s: State, timing: Timing, lenient: bool)
    requires WatchInv(s, timing, lenient) && s.todo != []
    ensures WatchInv(RunOp(s), timing, lenient)
  {
    hide Clock;
    var op, rest := s.todo[0], s.todo[1..];
    var t := RunOp(s);
    if s.phase == Clearing {
      assert |t.todo| == (if op.Delay? then |s.todo| else |rest|);
      assert forall i :: 0 <= i < |t.todo| ==> t.todo[i] != ReleaseFan;
      if |s.todo| >= 2 {
        assert s.todo[|s.todo| - 1] == rest[|rest| - 1];
      } else {
        assert op == SinceZero;
      }
    }
    assert CheckInv(t, timing);
  }

  /** The steps of button 2. */
  lemma ButtonKeeps(s: State, timing: Timing, step: Step, lenient: bool)
    requires WatchInv(s, timing, lenient) && Enabled(s, timing, step)
    requires step == Press || step == WriteManual || step == ReadStamp || step == WriteStamp
    requires !lenient ==> !StaleWrite(s, timing, step)
    ensures WatchInv(Do(s, timing, step), timing, lenient)
  {
    hide Elapsed, Clock, RunCheck, RunOp, Program, Produced, Enqueue;
  }

  lemma {:induction false} WatchStep(s: State, timing: Timing, step: Step, lenient: bool)
    requires WatchInv(s, timing, lenient) && Enabled(s, timing, step) && Moderate(timing)
    requires !lenient ==> !StaleWrite(s, timing, step)
    ensures WatchInv(Do(s, timing, step), timing, lenient)
  {
    hide Elapsed, Clock, RunCheck, RunOp, Program, Produced;
    match step {
      case Check => CheckKeeps(s, timing, lenient);
      case Next => OpKeeps(s, timing, lenient);
      case Press => ButtonKeeps(s, timing, step, lenient);
      case WriteManual => ButtonKeeps(s, timing, step, lenient);
      case ReadStamp => ButtonKeeps(s, timing, step, lenient);
      case WriteStamp => ButtonKeeps(s, timing, step, lenient);
      case _ =>
    }
  }

  /** No step of the run sets the flag over a stamp that is too old. */
  predicate NoStaleWrite(s: State, timing: Timing, steps: seq<Step>) {
    steps == [] ||
    (var before := Exec(s, timing, steps[..|steps| - 1]);
     && NoStaleWrite(s, timing, steps[..|steps| - 1])
     && (before.Some? ==> !StaleWrite(before.value, timing, steps[|steps| - 1])))
  }

  lemma {:induction false} WatchRun(s: State, timing: Timing, steps: seq<Step>, lenient: bool)
    requires Initial(s) && Exec(s, timing, steps).Some? && Moderate(timing)
    requires lenient || NoStaleWrite(s, timing, steps)
    ensures WatchInv(Exec(s, timing, steps).value, timing, lenient)
    decreases |steps|
  {
    hide Do, Enabled, StaleWrite;
    if steps != [] {
      WatchRun(s, timing, steps[..|steps| - 1], lenient);
      WatchStep(Exec(s, timing, steps[..|steps| - 1]).value, timing, steps[|steps| - 1], lenient);
    }
  }

  /** A set flag with a nonzero stamp is younger than the timeout, an actuator iteration and a store. */
  predicate Bounded(s: State, timing: Timing) {
    s.manual && s.since != 0 ==>
      s.since == Clock(s.sinceAt) && s.now - s.sinceAt < 30000 + timing.iteration + timing.store
  }

  /** In every run: except while the monitoring task is between flag and stamp, the bound holds. */
  lemma {:induction false} FanNeverOutlives(s: State, timing: Timing, steps: seq<Step>)
    requires Initial(s) && Exec(s, timing, steps).Some? && Moderate(timing)
    ensures !MidPress(Exec(s, timing, steps).value.monitor) ==> Bounded(Exec(s, timing, steps).value, timing)
  {
    hide Exec;
    WatchRun(s, timing, steps, true);
  }

  /** The bound holds at every point of the run, however much time passes there. */
  ghost predicate AlwaysBounded(s: State, timing: Timing, steps: seq<Step>) {
    forall n, ms: nat :: 0 <= n <= |steps| ==>
      var u := Exec(s, timing, steps[..n]);
      u.Some? && Enabled(u.value, timing, Tick(ms)) ==> Bounded(Do(u.value, timing, Tick(ms)), timing)
  }

  lemma {:induction false} NoStalePrefix(s: State, timing: Timing, steps: seq<Step>, n: nat)
    requires NoStaleWrite(s, timing, steps) && n <= |steps|
    ensures NoStaleWrite(s, timing, steps[..n])
    decreases |steps|
  {
    hide StaleWrite, Exec;
    if n < |steps| {
      NoStalePrefix(s, timing, steps[..|steps| - 1], n);
      assert steps[..|steps| - 1][..n] == steps[..n];
    } else {
      assert steps[..n] == steps;
    }
  }

  lemma NoStaleTick(s: State, timing: Timing, run: seq<Step>, ms: nat)
    requires NoStaleWrite(s, timing, run)
    ensures NoStaleWrite(s, timing, run + [Tick(ms)])
  {
    assert (run + [Tick(ms)])[..|run|] == run;
  }

  /** The last step sets the flag over a stamp that is too old: with time up to the next check, the bound
      is missed. */
  lemma StaleOutlives(s: State, timing: Timing, run: seq<Step>)
    requires Initial(s) && Exec(s, timing, run).Some? && Moderate(timing) && run != []
    requires Exec(s, timing, run[..|run| - 1]).Some?
    requires StaleWrite(Exec(s, timing, run[..|run| - 1]).value, timing, run[|run| - 1])
    ensures var u := Exec(s, timing, run).value;
            exists ms: nat :: Enabled(u, timing, Tick(ms)) && !Bounded(Do(u, timing, Tick(ms)), timing)
  {
    hide RunCheck, RunOp, Program, Clock;
    WatchRun(s, timing, run, true);
    var u := Exec(s, timing, run).value;
    var ms := u.mark + timing.iteration - u.now;
    assert Enabled(u, timing, Tick(ms)) && !Bounded(Do(u, timing, Tick(ms)), timing);
  }

  lemma {:induction false} FirstStale(s: State, timing: Timing, steps: seq<Step>) returns (n: nat)
    requires Exec(s, timing, steps).Some? && !NoStaleWrite(s, timing, steps)
    ensures 0 < n <= |steps| && Exec(s, timing, steps[..n]).Some? && Exec(s, timing, steps[..n - 1]).Some?
    ensures StaleWrite(Exec(s, timing, steps[..n - 1]).value, timing, steps[n - 1])
    decreases |steps|
  {
    hide StaleWrite, Do, Enabled;
    var init := steps[..|steps| - 1];
    if NoStaleWrite(s, timing, init) {
      n := |steps|;
      assert steps[..n] == steps;
    } else {
      n := FirstStale(s, timing, init);
      assert init[..n] == steps[..n] && init[..n - 1] == steps[..n - 1];
    }
  }

  /** In every run: the bound holds at every point, the time between flag and stamp included, and however
      long the tasks take within the timing, if and only if the flag is never set over a stamp that was too
      old when the last watchdog check began. */
  lemma {:induction false} BoundExactly(s: State, timing: Timing, steps: seq<Step>)
    requires Initial(s) && Exec(s, timing, steps).Some? && Moderate(timing)
    ensures AlwaysBounded(s, timing, steps) <==> NoStaleWrite(s, timing, steps)
  {
    hide Exec, Do, Enabled, Bounded, StaleWrite, NoStaleWrite;
    if NoStaleWrite(s, timing, steps) {
      forall n, ms: nat | 0 <= n <= |steps| && Exec(s, timing, steps[..n]).Some?
        && Enabled(Exec(s, timing, steps[..n]).value, timing, Tick(ms))
        ensures Bounded(Do(Exec(s, timing, steps[..n]).value, timing, Tick(ms)), timing)
      {
        var run := steps[..n];
        NoStalePrefix(s, timing, steps, n);
        NoStaleTick(s, timing, run, ms);
        var run', u := Extend(s, timing, run, Exec(s, timing, run).value, Tick(ms));
        WatchRun(s, timing, run', false);
        WatchedIsBounded(u, timing);
      }
    } else {
      var n := FirstStale(s, timing, steps);
      var run := steps[..n];
      assert run[..n - 1] == steps[..n - 1] && run[n - 1] == steps[n - 1];
      StaleOutlives(s, timing, run);
    }
  }

  lemma WatchedIsBounded(s: State, timing: Timing)
    requires WatchInv(s, timing, false)
    ensures Bounded(s, timing)
  {
  }

  /** In terms of the age of the stamp over which the flag is set: under 30 s is always young enough, and at
      the bound it is missed at once. */
  lemma WriteAges(s: State, timing: Timing, lenient: bool)
    requires WatchInv(s, timing, lenient) && s.monitor == Pressing && s.since != 0
    ensures s.now - s.sinceAt < FAN_MANUAL_TIMEOUT_S * 1000 ==> !StaleWrite(s, timing, WriteManual)
    ensures s.now - s.sinceAt >= FAN_MANUAL_TIMEOUT_S * 1000 + timing.iteration + timing.store ==>
              StaleWrite(s, timing, WriteManual) && !Bounded(Do(s, timing, WriteManual), timing)
  {
  }

  // The flag does get set over an old stamp.

  function WitnessTiming(): Timing {
    Timing(12000, 0)
  }

  /** Button 2 switches the fan on. */
  lemma SwitchedOn(s: State) returns (run: seq<Step>, u: State)
    requires Initial(s) && Clock(s.now) == 1
    ensures Exec(s, WitnessTiming(), run) == Some(u) && u.vars.fan
    ensures u == s.(pins := u.pins, vars := u.vars, manual := true, since := 1, sinceAt := s.now, phase := Running,
                    accepted := u.accepted, taken := u.taken)
  {
    hide Exec, RunCheck;
    var timing := WitnessTiming();
    run, u := [], s;
    NoSteps(s, timing);
    run, u := Extend(s, timing, run, u, Press);
    run, u := Extend(s, timing, run, u, WriteManual);
    run, u := Extend(s, timing, run, u, ReadStamp);
    run, u := Extend(s, timing, run, u, WriteStamp);
    run, u := Extend(s, timing, run, u, PostPress);
    assert u.queue == [Msg(FanOn, 0)] && u.phase == Waiting;
    run, u := Extend(s, timing, run, u, Receive);
    run, u := Extend(s, timing, run, u, Next);
    run, u := Extend(s, timing, run, u, Next);
  }

  /** A check that finds the stamp new. */
  lemma StaysOn(s: State, timing: Timing, run: seq<Step>, u: State) returns (run': seq<Step>, u': State)
    requires Exec(s, timing, run) == Some(u) && u.phase == Running && u.todo == [] && u.manual
    requires u.since == 1 && Clock(u.now) == 1
    ensures Exec(s, timing, run') == Some(u') && u' == u.(phase := Waiting, checkStart := u.now, mark := u.now)
  {
    hide Exec, RunOp;
    run', u' := Extend(s, timing, run, u, Check);
    run', u' := Extend(s, timing, run', u', Check);
    run', u' := Extend(s, timing, run', u', Check);
    assert u'.phase == AtStamp(u.now) && Elapsed(u.now, 1) == 0;
    run', u' := Extend(s, timing, run', u', Check);
  }

  /** The next press switches it off: FAN_OFF, up to its last two writes. */
  lemma OffBegins(s: State) returns (run: seq<Step>, u: State)
    requires Initial(s) && Clock(s.now) == 1
    ensures Exec(s, WitnessTiming(), run) == Some(u) && !u.vars.fan
    ensures u == s.(now := s.now + 2000, pins := u.pins, vars := u.vars, manual := true, since := 1, sinceAt := s.now,
                    phase := Running, todo := [ManualOff, SinceZero], checkStart := s.now, accepted := u.accepted, taken := u.taken)
  {
    hide Exec, RunCheck;
    var timing := WitnessTiming();
    run, u := SwitchedOn(s);
    run, u := StaysOn(s, timing, run, u);
    run, u := Extend(s, timing, run, u, Tick(1000));
    run, u := Extend(s, timing, run, u, Press);
    run, u := Extend(s, timing, run, u, PostPress);
    run, u := Extend(s, timing, run, u, Tick(1000));
    assert u.queue == [Msg(FanOff, 0)] && u.phase == Waiting && u.monitor == Idle;
    run, u := Extend(s, timing, run, u, Receive);
    run, u := Extend(s, timing, run, u, Next);
    run, u := Extend(s, timing, run, u, Next);
  }

  /** FAN_OFF resets flag and stamp between the two writes of a third press: the stamp is left without the
      flag. */
  lemma StampLeft(s: State) returns (run: seq<Step>, u: State)
    requires Initial(s) && Clock(s.now) == 1
    ensures Exec(s, WitnessTiming(), run) == Some(u)
    ensures u == s.(now := s.now + 2000, pins := u.pins, vars := u.vars, since := 2001, sinceAt := s.now + 2000,
                    checkStart := s.now + 2000, mark := s.now + 2000,
                    monitor := Posting(Msg(FanOn, 0)), accepted := u.accepted, taken := u.taken)
    ensures !u.vars.fan
  {
    hide Exec, RunCheck, Program;
    var timing := WitnessTiming();
    run, u := OffBegins(s);
    run, u := Extend(s, timing, run, u, Press);
    run, u := Extend(s, timing, run, u, WriteManual);
    run, u := Extend(s, timing, run, u, Next);
    run, u := Extend(s, timing, run, u, Next);
    run, u := Extend(s, timing, run, u, ReadStamp);
    run, u := Extend(s, timing, run, u, WriteStamp);
    assert u.todo == [] && !u.manual && u.phase == Running;
    run, u := Idles(s, timing, run, u);
  }

  /** A check that finds the flag clear. */
  lemma Idles(s: State, timing: Timing, run: seq<Step>, u: State) returns (run': seq<Step>, u': State)
    requires Exec(s, timing, run) == Some(u) && u.phase == Running && u.todo == [] && !u.manual
    ensures Exec(s, timing, run') == Some(u') && u' == u.(phase := Waiting, checkStart := u.now, mark := u.now)
  {
    hide Exec;
    run', u' := Extend(s, timing, run, u, Check);
  }

  /** The fan goes on for the button and off again after a timed command. */
  lemma FanOffAgain(s: State) returns (run: seq<Step>, u: State)
    requires Initial(s) && Clock(s.now) == 1
    ensures Exec(s, WitnessTiming(), run) == Some(u) && !u.vars.fan && u.now == u.mark == s.now + 7000
    ensures !u.manual && u.since == 2001 && u.sinceAt == s.now + 2000 && u.monitor == Idle && u.phase == Waiting
    ensures u.todo == [] && u.queue == []
  {
    hide Exec, RunCheck;
    var timing := WitnessTiming();
    run, u := StampLeft(s);
    run, u := Extend(s, timing, run, u, PostPress);
    run, u := Extend(s, timing, run, u, Receive);
    run, u := Extend(s, timing, run, u, Next);
    run, u := Extend(s, timing, run, u, Next);
    run, u := Idles(s, timing, run, u);
    assert u.now == u.mark == s.now + 2000 && u.queue == [] && u.monitor == Idle;
    run, u := FanTimed(s, timing, run, u);
    run, u := Idles(s, timing, run, u);
  }

  /** FAN_ON for five seconds with the flag clear. */
  lemma FanTimed(s: State, timing: Timing, run: seq<Step>, u: State) returns (run': seq<Step>, u': State)
    requires Exec(s, timing, run) == Some(u) && u.phase == Waiting && u.todo == [] && u.queue == [] && !u.manual
    requires u.monitor == Idle && u.now + 5000 <= u.mark + timing.iteration
    ensures Exec(s, timing, run') == Some(u') && !u'.vars.fan
    ensures u' == u.(now := u.now + 5000, phase := Running, pins := u'.pins, vars := u'.vars,
                     accepted := u'.accepted, taken := u'.taken)
  {
    hide Exec, RunCheck;
    run', u' := Extend(s, timing, run, u, Post(Msg(FanOn, 5000)));
    run', u' := Extend(s, timing, run', u', Receive);
    run', u' := Extend(s, timing, run', u', Next);
    run', u' := Extend(s, timing, run', u', Next);
    run', u' := Extend(s, timing, run', u', Next);
    assert u'.todo == [Sleep(u.now + 5000), ReleaseFan];
    run', u' := Extend(s, timing, run', u', Tick(5000));
    run', u' := Extend(s, timing, run', u', Next);
    run', u' := Extend(s, timing, run', u', Next);
    assert u'.todo == Switch(Fan, false);
    run', u' := Extend(s, timing, run', u', Next);
    run', u' := Extend(s, timing, run', u', Next);
  }

  /** n times: no command for a second, and a check. */
  lemma {:induction false} IdleFor(s: State, timing: Timing, run: seq<Step>, u: State, n: nat) returns (run': seq<Step>, u': State)
    requires Exec(s, timing, run) == Some(u) && u.phase == Waiting && u.todo == [] && !u.manual
    requires u.mark == u.now && timing.iteration >= 1000 && u.monitor == Idle
    ensures Exec(s, timing, run') == Some(u')
    ensures u' == u.(now := u.now + 1000 * n, mark := u.now + 1000 * n, checkStart := u'.checkStart)
    decreases n
  {
    hide Exec, RunCheck, RunOp;
    run', u' := run, u;
    if n > 0 {
      run', u' := Extend(s, timing, run', u', Tick(1000));
      run', u' := Extend(s, timing, run', u', ReceiveNothing);
      run', u' := Idles(s, timing, run', u');
      run', u' := IdleFor(s, timing, run', u', n - 1);
    }
  }

  /** 45 s later, a press sets the flag over it. */
  lemma {:induction false} StalePressHappens(s: State) returns (run: seq<Step>)
    requires Initial(s) && Clock(s.now) == 1
    ensures Exec(s, WitnessTiming(), run).Some?
    ensures var u := Exec(s, WitnessTiming(), run).value;
            u.manual && u.since != 0 && u.now - u.sinceAt > 30000 + WitnessTiming().iteration + WitnessTiming().store
    ensures !Bounded(Exec(s, WitnessTiming(), run).value, WitnessTiming())
  {
    hide Exec, RunCheck;
    var timing := WitnessTiming();
    var u: State;
    run, u := FanOffAgain(s);
    run, u := IdleFor(s, timing, run, u, 45);
    run, u := Extend(s, timing, run, u, Press);
    run, u := Extend(s, timing, run, u, WriteManual);
  }
}
