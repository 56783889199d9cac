/** The actuator task, button 2 of the monitoring task and the posters of commands, write by write: the
    actuator mutex is taken with a bounded wait whose result is ignored, so it orders nothing. */
module Actuator {
  import opened Bytes
  import opened Options
  import opened Ticks

  const QUEUE_SIZE := 8
  const FAN_MANUAL_TIMEOUT_S := 30

  datatype Device = Buzzer | Fan | AlarmLed | NormalLed

  datatype Panel = Panel(buzzer: bool, fan: bool, alarm: bool, normal: bool)

  function Get(p: Panel, d: Device): bool {
    match d
    case Buzzer => p.buzzer
    case Fan => p.fan
    case AlarmLed => p.alarm
    case NormalLed => p.normal
  }

  function Set(p: Panel, d: Device, v: bool): Panel {
    match d
    case Buzzer => p.(buzzer := v)
    case Fan => p.(fan := v)
    case AlarmLed => p.(alarm := v)
    case NormalLed => p.(normal := v)
  }

  /** The level of the pin of a device that is on or off: the fan relay is active low. */
  function Level(d: Device, on: bool): bool {
    if d == Fan then !on else on
  }

  datatype Cmd = BuzzerOn | BuzzerOff | FanOn | FanOff | AlarmOn | AlarmOff | NormalOn | NormalOff | AllClear

  datatype Msg = Msg(cmd: Cmd, duration: nat)

  /** One access of the actuator task to what it shares, or a wait, while it executes a command. */
  datatype Op =
    | SetPin(d: Device, on: bool)
    | SetVar(d: Device, on: bool)
    | ManualOff
    | SinceZero
    | Delay(ms: nat)
    | Sleep(until: nat)
    | ReleaseFan

  /** Where the actuator task is: waiting for a command, executing one, or in its watchdog check. */
  datatype Phase = Waiting | Running | AtSince | AtClock | AtStamp(t: nat) | Clearing

  function Switch(d: Device, on: bool): seq<Op> {
    [SetPin(d, on), SetVar(d, on)]
  }

  function FanReset(): seq<Op> {
    [SetPin(Fan, false), SetVar(Fan, false), ManualOff, SinceZero]
  }

  /** The arms of the command switch. */
  function Program(m: Msg): seq<Op> {
    match m.cmd
    case BuzzerOn => Switch(Buzzer, true) + (if m.duration > 0 then [Delay(m.duration)] + Switch(Buzzer, false) else [])
    case BuzzerOff => Switch(Buzzer, false)
    case FanOn => Switch(Fan, true) + (if m.duration > 0 then [Delay(m.duration), ReleaseFan] else [])
    case FanOff => FanReset()
    case AlarmOn => Switch(AlarmLed, true) + (if m.duration > 0 then [Delay(m.duration)] + Switch(AlarmLed, false) else [])
    case AlarmOff => Switch(AlarmLed, false)
    case NormalOn => Switch(NormalLed, true)
    case NormalOff => Switch(NormalLed, false)
    case AllClear =>
      [SetPin(Buzzer, false), SetPin(Fan, false), SetPin(AlarmLed, false), SetPin(NormalLed, true),
       SetVar(Buzzer, false), SetVar(Fan, false), SetVar(AlarmLed, false), SetVar(NormalLed, true),
       ManualOff, SinceZero]
  }

  /** The monitoring task, on a press of button 2. */
  datatype Monitor = Idle | Pressing | Pressed | Stamping(at: nat) | Posting(m: Msg)

  datatype State = State(
    now: nat,             // true time; the clock of the code shows it modulo 2^32
    pins: Panel, vars: Panel, manual: bool, since: u32,
    sinceAt: nat,         // the true time that `since` stands for
    phase: Phase,
    todo: seq<Op>,        // the rest of the command, or of the writes of the watchdog
    checkStart: nat,      // when the watchdog check in progress began
    mark: nat,            // when the last complete watchdog check began
    monitor: Monitor,
    queue: seq<Msg>, accepted: seq<Msg>, taken: seq<Msg>)

  /** One actuator iteration, from the start of one watchdog check to the end of the next, takes at most
      `iteration` ms, and the monitoring task stores the clock at most `store` ms after reading it. */
  datatype Timing = Timing(iteration: nat, store: nat)

  datatype Step =
    | Tick(ms: nat)
    | Post(m: Msg)
    | Receive
    | ReceiveNothing
    | Next
    | Check
    | Press
    | WriteManual
    | ReadStamp
    | WriteStamp
    | PostPress

  /** The age of a stamp in whole seconds. */
  function Elapsed(t: nat, since: u32): nat {
    Since(t, since) / 1000
  }

  /** xQueueSend: a full queue refuses the message once the wait is over. */
  function Enqueue(s: State, m: Msg): State {
    if |s.queue| < QUEUE_SIZE then s.(queue := s.queue + [m], accepted := s.accepted + [m]) else s
  }

  function RunOp(s: State): State
    requires s.todo != []
  {
    var op, rest := s.todo[0], s.todo[1..];
    match op
    case SetPin(d, on) => s.(pins := Set(s.pins, d, Level(d, on)), todo := rest)
    case SetVar(d, on) => s.(vars := Set(s.vars, d, on), todo := rest)
    case ManualOff => s.(manual := false, todo := rest)
    case SinceZero => s.(since := 0, todo := rest)
    case Delay(ms) => s.(todo := [Sleep(s.now + ms)] + rest)
    case Sleep(_) => s.(todo := rest)
    case ReleaseFan => s.(todo := (if s.manual then [] else Switch(Fan, false)) + rest)
  }

  function EndCheck(s: State): State {
    s.(phase := Waiting, mark := s.checkStart)
  }

  /** The next access of the watchdog check. */
  function RunCheck(s: State): State {
    match s.phase
    case Waiting => s
    case Running => if s.manual then s.(phase := AtSince, checkStart := s.now) else EndCheck(s.(checkStart := s.now))
    case AtSince => if s.since > 0 then s.(phase := AtClock) else EndCheck(s)
    case AtClock => s.(phase := AtStamp(s.now))
    case AtStamp(t) =>
      if Elapsed(t, s.since) >= FAN_MANUAL_TIMEOUT_S then s.(phase := Clearing, todo := FanReset()) else EndCheck(s)
    case Clearing => EndCheck(s)
  }

  /** What the tasks of the firmware post, besides button 2: every BUZZER_ON has a duration. ALL_CLEAR is
      posted only on a SYSTEM_OK event, which no task sends. */
  predicate Produced(m: Msg) {
    m in {Msg(BuzzerOn, 5000), Msg(AlarmOn, 0), Msg(NormalOff, 0), Msg(BuzzerOn, 500), Msg(BuzzerOn, 10000),
          Msg(FanOn, 10000), Msg(FanOn, 5000), Msg(AlarmOn, 5000), Msg(BuzzerOn, 3000), Msg(AlarmOn, 3000),
          Msg(BuzzerOn, 2000), Msg(AlarmOn, 2000)}
  }

  predicate Enabled(s: State, timing: Timing, step: Step) {
    match step
    case Tick(ms) =>
      s.now + ms <= s.mark + timing.iteration && (s.monitor.Stamping? ==> s.now + ms <= s.monitor.at + timing.store)
    case Post(m) => Produced(m)
    case Receive => s.phase == Waiting && s.queue != []
    case ReceiveNothing => s.phase == Waiting
    case Next => s.todo != [] && (s.todo[0].Sleep? ==> s.now >= s.todo[0].until)
    case Check => s.phase != Waiting && s.todo == []
    case Press => s.monitor == Idle
    case WriteManual => s.monitor == Pressing
    case ReadStamp => s.monitor == Pressed
    case WriteStamp => s.monitor.Stamping?
    case PostPress => s.monitor.Posting?
  }

  function Do(s: State, timing: Timing, step: Step): State
    requires Enabled(s, timing, step)
  {
    match step
    case Tick(ms) => s.(now := s.now + ms)
    case Post(m) => Enqueue(s, m)
    case Receive =>
      s.(phase := Running, todo := Program(s.queue[0]), queue := s.queue[1..], taken := s.taken + [s.queue[0]])
    case ReceiveNothing => s.(phase := Running)
    case Next => RunOp(s)
    case Check => RunCheck(s)
    case Press => s.(monitor := if s.vars.fan then Posting(Msg(FanOff, 0)) else Pressing)
    case WriteManual => s.(manual := true, monitor := Pressed)
    case ReadStamp => s.(monitor := Stamping(s.now))
    case WriteStamp => s.(since := Clock(s.monitor.at), sinceAt := s.monitor.at, monitor := Posting(Msg(FanOn, 0)))
    case PostPress => Enqueue(s, s.monitor.m).(monitor := Idle)
  }

  predicate Initial(s: State) {
    && s.pins == Panel(false, true, false, true) && s.vars == Panel(false, false, false, true)
    && !s.manual && s.since == 0 && s.sinceAt == 0
    && s.phase == Waiting && s.todo == [] && s.mark == s.now && s.monitor == Idle
    && s.queue == [] && s.accepted == [] && s.taken == []
  }

  function Exec(s: State, timing: Timing, steps: seq<Step>): Option<State> {
    if steps == [] then Some(s)
    else
      var before, step := Exec(s, timing, steps[..|steps| - 1]), steps[|steps| - 1];
      if before.Some? && Enabled(before.value, timing, step) then Some(Do(before.value, timing, step)) else None
  }

  lemma Extend(s: State, timing: Timing, run: seq<Step>, u: State, step: Step) returns (run': seq<Step>, u': State)
    requires Exec(s, timing, run) == Some(u) && Enabled(u, timing, step)
    ensures run' == run + [step] && u' == Do(u, timing, step) && Exec(s, timing, run') == Some(u')
  {
    hide Do, Enabled;
    run', u' := run + [step], Do(u, timing, step);
    assert run'[..|run|] == run;
  }

  lemma NoSteps(s: State, timing: Timing)
    ensures Exec(s, timing, []) == Some(s)
  {
  }
}
