/** The actuator state and its pins as the tasks write them. */
module ActuatorTask {
  import opened Actuator
  import opened ActuatorPanel
  import opened Bytes
  import opened Options
  import opened Ticks

  /** xActuatorQueue. */
  class CommandQueue {
    var items: seq<Msg>

    ghost predicate Valid()
      reads this
    {
      |items| <= QUEUE_SIZE
    }

    constructor ()
      ensures Valid() && items == []
    {
      items := [];
    }

    /** actuator_post, once the wait for room is over. */
    method Post(m: Msg) returns (ok: bool)
      requires Valid()
      modifies this
      ensures Valid() && ok == (|old(items)| < QUEUE_SIZE)
      ensures items == if ok then old(items) + [m] else old(items)
    {
      ok := |items| < QUEUE_SIZE;
      if ok {
        items := items + [m];
      }
    }

    method Receive() returns (m: Option<Msg>)
      requires Valid()
      modifies this
      ensures Valid()
      ensures m.None? <==> old(items) == []
      ensures m.Some? ==> old(items) == [m.value] + items
      ensures m.None? ==> items == []
    {
      if items == [] {
        return None;
      }
      m := Some(items[0]);
      items := items[1..];
    }
  }

  /** What a command amounts to for all devices. */
  function OutcomeOf(v: Panel, m: Msg, held: bool): Panel {
    Panel(Outcome(m, Buzzer, v.buzzer, held), Outcome(m, Fan, v.fan, held),
          Outcome(m, AlarmLed, v.alarm, held), Outcome(m, NormalLed, v.normal, held))
  }

  /** The device of a command other than ALL_CLEAR, and whether it is left on. */
  function DeviceOf(cmd: Cmd): Device
    requires cmd != AllClear
  {
    match cmd
    case BuzzerOn | BuzzerOff => Buzzer
    case FanOn | FanOff => Fan
    case AlarmOn | AlarmOff => AlarmLed
    case NormalOn | NormalOff => NormalLed
  }

  function Lasting(m: Msg, held: bool): bool
    requires m.cmd != AllClear
  {
    match m.cmd
    case BuzzerOn | AlarmOn => m.duration == 0
    case FanOn => m.duration == 0 || held
    case NormalOn => true
    case BuzzerOff | FanOff | AlarmOff | NormalOff => false
  }

  /** A command sets the record of one device, or clears the panel. */
  lemma OutcomeSets(v: Panel, m: Msg, held: bool)
    ensures OutcomeOf(v, m, held) ==
            if m.cmd == AllClear then Panel(false, false, false, true) else Set(v, DeviceOf(m.cmd), Lasting(m, held))
    ensures m.cmd == FanOn ==> DeviceOf(m.cmd) == Fan && Lasting(m, held) == (m.duration == 0 || held)
    ensures m.cmd == FanOff ==> DeviceOf(m.cmd) == Fan && !Lasting(m, held)
    ensures m.cmd != FanOn && m.cmd != AllClear ==> Lasting(m, held) == Lasting(m, false)
  {
  }

  /** A record that is set, and when. */
  datatype Write = Write(d: Device, on: bool, at: nat)

  /** The records that a command sets: from t0 to t1, if it takes time. */
  function Writes(m: Msg, held: bool, t0: nat, t1: nat): seq<Write> {
    match m.cmd
    case BuzzerOn => [Write(Buzzer, true, t0)] + (if m.duration > 0 then [Write(Buzzer, false, t1)] else [])
    case BuzzerOff => [Write(Buzzer, false, t0)]
    case FanOn => [Write(Fan, true, t0)] + (if m.duration > 0 && !held then [Write(Fan, false, t1)] else [])
    case FanOff => [Write(Fan, false, t0)]
    case AlarmOn => [Write(AlarmLed, true, t0)] + (if m.duration > 0 then [Write(AlarmLed, false, t1)] else [])
    case AlarmOff => [Write(AlarmLed, false, t0)]
    case NormalOn => [Write(NormalLed, true, t0)]
    case NormalOff => [Write(NormalLed, false, t0)]
    case AllClear => [Write(Buzzer, false, t0), Write(Fan, false, t0), Write(AlarmLed, false, t0), Write(NormalLed, true, t0)]
  }

  /** The writes of a device that is switched on for a time. */
  lemma WritesJoin(before: seq<Write>, after: seq<Write>, m: Msg, held: bool, t0: nat, t1: nat)
    requires m.cmd == BuzzerOn || m.cmd == FanOn || m.cmd == AlarmOn
    requires var d := DeviceOf(m.cmd);
             after == before + [Write(d, true, t0)]
               + (if m.duration > 0 && !(d == Fan && held) then [Write(d, false, t1)] else [])
    ensures after == before + Writes(m, held, t0, t1)
  {
  }

  lemma WritesHeld(m: Msg, held: bool, t0: nat, t1: nat)
    requires m.cmd != FanOn
    ensures Writes(m, held, t0, t1) == Writes(m, false, t0, t1)
  {
  }

  class Board {
    var pins: Panel
    var vars: Panel
    var manual: bool
    var since: u32
    ghost var now: nat
    ghost var log: seq<Write>

    /** Every pin shows the recorded state of its device. */
    ghost predicate Agree()
      reads this
    {
      pins == Panel(vars.buzzer, !vars.fan, vars.alarm, vars.normal)
    }

    /** As the outputs and the record are initialised. */
    constructor ()
      ensures Agree() && vars == Panel(false, false, false, true) && !manual && since == 0 && log == []
    {
      now, log := 0, [];
      pins, vars, manual, since := Panel(false, true, false, true), Panel(false, false, false, true), false, 0;
    }

    method SwitchDevice(d: Device, on: bool)
      modifies this`pins, this`vars, this`log
      ensures pins == Set(old(pins), d, Level(d, on)) && vars == Set(old(vars), d, on)
      ensures log == old(log) + [Write(d, on, now)]
    {
      pins := Set(pins, d, Level(d, on));
      vars := Set(vars, d, on);
      log := log + [Write(d, on, now)];
    }

    /** A delay without the mutex: at least its time passes, and only the monitoring task may write, and only
        these two. */
    method Pause(ms: nat)
      modifies this`manual, this`since, this`now
      ensures now >= old(now) + ms
    {
      ghost var passed: nat :| passed >= ms;
      now := now + passed;
      manual := *;
      since := *;
    }

    method ResetManual()
      modifies this`manual, this`since
      ensures !manual && since == 0
    {
      manual := false;
      since := 0;
    }

    /** A device that is switched on for a time, or for good. */
    method SwitchFor(d: Device, ms: nat)
      requires Agree() && d != Fan
      modifies this
      ensures Agree() && vars == Set(old(vars), d, ms == 0)
      ensures now >= old(now) + ms && (ms == 0 ==> now == old(now))
      ensures log == old(log) + [Write(d, true, old(now))] + (if ms > 0 then [Write(d, false, now)] else [])
    {
      SwitchDevice(d, true);
      if ms > 0 {
        Pause(ms);
        SwitchDevice(d, false);
      }
    }

    /** The fan for a time, unless it is then held by hand, or for good. */
    method FanFor(ms: nat) returns (ghost held: bool)
      requires Agree()
      modifies this
      ensures Agree() && vars == Set(old(vars), Fan, ms == 0 || held)
      ensures ms > 0 ==> held == manual
      ensures now >= old(now) + ms && (ms == 0 ==> now == old(now))
      ensures log == old(log) + [Write(Fan, true, old(now))] + (if ms > 0 && !held then [Write(Fan, false, now)] else [])
    {
      SwitchDevice(Fan, true);
      held := manual;
      if ms > 0 {
        Pause(ms);
        held := manual;
        if !manual {
          SwitchDevice(Fan, false);
        }
      }
    }

    /** The arms that switch a device other than the fan. */
    method ExecuteOther(m: Msg)
      requires Agree() && m.cmd != FanOn && m.cmd != FanOff && m.cmd != AllClear
      modifies this
      ensures Agree() && vars == Set(old(vars), DeviceOf(m.cmd), Lasting(m, false))
      ensures log == old(log) + Writes(m, false, old(now), now)
      ensures now >= old(now) + (if m.cmd == BuzzerOn || m.cmd == AlarmOn then m.duration else 0)
    {
      ghost var log0 := log;
      match m.cmd
      case BuzzerOn => SwitchFor(Buzzer, m.duration); WritesJoin(log0, log, m, false, old(now), now);
      case BuzzerOff => SwitchDevice(Buzzer, false);
      case AlarmOn => SwitchFor(AlarmLed, m.duration); WritesJoin(log0, log, m, false, old(now), now);
      case AlarmOff => SwitchDevice(AlarmLed, false);
      case NormalOn => SwitchDevice(NormalLed, true);
      case NormalOff => SwitchDevice(NormalLed, false);
    }

    method ClearAll()
      modifies this
      ensures Agree() && vars == Panel(false, false, false, true) && !manual && since == 0 && now == old(now)
      ensures log == old(log) + Writes(Msg(AllClear, 0), false, now, now)
    {
      pins := Panel(false, true, false, true);
      vars := Panel(false, false, false, true);
      log := log + [Write(Buzzer, false, now), Write(Fan, false, now), Write(AlarmLed, false, now), Write(NormalLed, true, now)];
      ResetManual();
    }

    /** The command switch. `held` is the manual flag when a timed fan is released. A timed command leaves its
        device on for at least its duration. */
    method Execute(m: Msg) returns (ghost held: bool)
      requires Agree()
      modifies this
      ensures Agree() && vars == OutcomeOf(old(vars), m, held)
      ensures m.cmd == FanOff || m.cmd == AllClear ==> !manual && since == 0
      ensures m.cmd == FanOn && m.duration > 0 ==> held == manual
      ensures log == old(log) + Writes(m, held, old(now), now)
      ensures now >= old(now) + (if m.cmd == BuzzerOn || m.cmd == FanOn || m.cmd == AlarmOn then m.duration else 0)
    {
      hide OutcomeOf, Lasting, DeviceOf;
      held := false;
      ghost var log0 := log;
      if m.cmd == AllClear {
        ClearAll();
      } else if m.cmd == FanOn {
        held := FanFor(m.duration);
        OutcomeSets(old(vars), m, held);
        WritesJoin(log0, log, m, held, old(now), now);
      } else if m.cmd == FanOff {
        SwitchDevice(Fan, false);
        ResetManual();
      } else {
        ExecuteOther(m);
        WritesHeld(m, held, old(now), now);
      }
      OutcomeSets(old(vars), m, held);
    }

    /** The watchdog on a manual fan, at true time t. */
    method CheckManual(t: nat)
      requires Agree()
      modifies this
      ensures Agree() && now == old(now)
      ensures if old(manual) && old(since) > 0 && Elapsed(t, old(since)) >= FAN_MANUAL_TIMEOUT_S
              then vars == Set(old(vars), Fan, false) && !manual && since == 0
              else vars == old(vars) && pins == old(pins) && manual == old(manual) && since == old(since)
    {
      if manual && since > 0 {
        var elapsed := Sub32(Clock(t), since) / 1000;
        if elapsed >= FAN_MANUAL_TIMEOUT_S {
          SwitchDevice(Fan, false);
          ResetManual();
        }
      }
    }

    /** Button 2, at true time t: off with a fan that is on, otherwise on by hand. */
    method PressButton2(t: nat, queue: CommandQueue) returns (ok: bool)
      requires queue.Valid()
      modifies this`manual, this`since, queue
      ensures queue.Valid()
      ensures ok == (|old(queue.items)| < QUEUE_SIZE)
      ensures queue.items == if !ok then old(queue.items)
                             else old(queue.items) + [Msg(if vars.fan then FanOff else FanOn, 0)]
      ensures if vars.fan then manual == old(manual) && since == old(since) else manual && since == Clock(t)
    {
      if vars.fan {
        ok := queue.Post(Msg(FanOff, 0));
      } else {
        manual := true;
        since := Clock(t);
        ok := queue.Post(Msg(FanOn, 0));
      }
    }
  }
}
