/** The pins against the recorded state, the buzzer at the head of the loop, and the order of commands,
    in every run of the actuator machine. */
module ActuatorPanel {
  import opened Actuator

  /** From this pin and this record on, the rest of a command leaves them in agreement whenever it waits
      and at its end. */
  predicate Balanced(todo: seq<Op>, d: Device, pin: bool, on: bool)
    decreases |todo|
  {
    if todo == [] then pin == Level(d, on)
    else
      var rest := todo[1..];
      match todo[0]
      case SetPin(e, v) => Balanced(rest, d, if e == d then Level(d, v) else pin, on)
      case SetVar(e, v) => Balanced(rest, d, pin, if e == d then v else on)
      case Delay(_) => pin == Level(d, on) && Balanced(rest, d, pin, on)
      case Sleep(_) => pin == Level(d, on) && Balanced(rest, d, pin, on)
      case ReleaseFan => Balanced(rest, d, pin, on) && (d == Fan ==> Balanced(rest, d, Level(d, false), false))
      case _ => Balanced(rest, d, pin, on)
  }

  lemma Prepend(op: Op, rest: seq<Op>, d: Device, pin: bool, on: bool)
    ensures Balanced([op] + rest, d, pin, on) <==>
            match op
            case SetPin(e, v) => Balanced(rest, d, if e == d then Level(d, v) else pin, on)
            case SetVar(e, v) => Balanced(rest, d, pin, if e == d then v else on)
            case Delay(_) => pin == Level(d, on) && Balanced(rest, d, pin, on)
            case Sleep(_) => pin == Level(d, on) && Balanced(rest, d, pin, on)
            case ReleaseFan => Balanced(rest, d, pin, on) && (d == Fan ==> Balanced(rest, d, Level(d, false), false))
            case _ => Balanced(rest, d, pin, on)
  {
    assert ([op] + rest)[1..] == rest;
  }

  /** Setting the pin and the record of a device one after the other. */
  lemma SwitchBalanced(e: Device, v: bool, rest: seq<Op>, d: Device, pin: bool, on: bool)
    ensures Balanced(Switch(e, v) + rest, d, pin, on) <==>
            if d == e then Balanced(rest, d, Level(d, v), v) else Balanced(rest, d, pin, on)
  {
    hide Balanced;
    var more := [SetVar(e, v)] + rest;
    Prepend(SetPin(e, v), more, d, pin, on);
    Prepend(SetVar(e, v), rest, d, if e == d then Level(d, v) else pin, on);
    assert Switch(e, v) + rest == [SetPin(e, v)] + more;
  }

  lemma NothingBalanced(d: Device, on: bool)
    ensures Balanced([], d, Level(d, on), on)
  {
  }

  lemma ResetBalanced(d: Device, on: bool)
    ensures Balanced(FanReset(), d, Level(d, on), on)
  {
    hide Balanced;
    NothingBalanced(d, if d == Fan then false else on);
    var z := if d == Fan then false else on;
    Prepend(SinceZero, [], d, Level(d, z), z);
    Prepend(ManualOff, [SinceZero], d, Level(d, z), z);
    SwitchBalanced(Fan, false, [ManualOff, SinceZero], d, Level(d, on), on);
    assert [SinceZero] + [] == [SinceZero] && [ManualOff] + [SinceZero] == [ManualOff, SinceZero];
    assert FanReset() == Switch(Fan, false) + [ManualOff, SinceZero];
  }

  /** Switching a device on, for a time or for good. */
  lemma TimedBalanced(e: Device, ms: nat, d: Device, on: bool)
    ensures Balanced(Switch(e, true) + ([Delay(ms)] + Switch(e, false)), d, Level(d, on), on)
    ensures Balanced(Switch(e, true), d, Level(d, on), on) && Balanced(Switch(e, false), d, Level(d, on), on)
  {
    hide Balanced;
    var z := if d == e then true else on;
    NothingBalanced(d, on);
    NothingBalanced(d, z);
    NothingBalanced(d, false);
    SwitchBalanced(e, false, [], d, Level(d, z), z);
    SwitchBalanced(e, false, [], d, Level(d, on), on);
    SwitchBalanced(e, true, [], d, Level(d, on), on);
    assert Switch(e, false) + [] == Switch(e, false) && Switch(e, true) + [] == Switch(e, true);
    Prepend(Delay(ms), Switch(e, false), d, Level(d, z), z);
    SwitchBalanced(e, true, [Delay(ms)] + Switch(e, false), d, Level(d, on), on);
  }

  lemma FanOnBalanced(ms: nat, d: Device, on: bool)
    ensures Balanced(Switch(Fan, true) + [Delay(ms), ReleaseFan], d, Level(d, on), on)
  {
    hide Balanced;
    var z := if d == Fan then true else on;
    NothingBalanced(d, z);
    NothingBalanced(d, false);
    Prepend(ReleaseFan, [], d, Level(d, z), z);
    Prepend(Delay(ms), [ReleaseFan], d, Level(d, z), z);
    SwitchBalanced(Fan, true, [Delay(ms), ReleaseFan], d, Level(d, on), on);
    assert [ReleaseFan] + [] == [ReleaseFan] && [Delay(ms)] + [ReleaseFan] == [Delay(ms), ReleaseFan];
  }

  lemma ClearBalanced(d: Device, on: bool)
    ensures Balanced(Program(Msg(AllClear, 0)), d, Level(d, on), on)
  {
    hide Balanced;
    var v := d == NormalLed;
    var p9, p8 := [SinceZero], [ManualOff, SinceZero];
    var p7 := [SetVar(NormalLed, true)] + p8;
    var p6 := [SetVar(AlarmLed, false)] + p7;
    var p5 := [SetVar(Fan, false)] + p6;
    var p4 := [SetVar(Buzzer, false)] + p5;
    var p3 := [SetPin(NormalLed, true)] + p4;
    var p2 := [SetPin(AlarmLed, false)] + p3;
    var p1 := [SetPin(Fan, false)] + p2;
    NothingBalanced(d, v);
    Prepend(SinceZero, [], d, Level(d, v), v);
    Prepend(ManualOff, p9, d, Level(d, v), v);
    assert p9 + [] == p9 && p8 == [ManualOff] + p9;
    Prepend(SetVar(NormalLed, true), p8, d, Level(d, v), if d == NormalLed then on else v);
    Prepend(SetVar(AlarmLed, false), p7, d, Level(d, v), if d == NormalLed || d == AlarmLed then on else v);
    Prepend(SetVar(Fan, false), p6, d, Level(d, v), if d != Buzzer then on else v);
    Prepend(SetVar(Buzzer, false), p5, d, Level(d, v), on);
    Prepend(SetPin(NormalLed, true), p4, d, Level(d, if d == NormalLed then on else v), on);
    Prepend(SetPin(AlarmLed, false), p3, d, Level(d, if d == NormalLed || d == AlarmLed then on else v), on);
    Prepend(SetPin(Fan, false), p2, d, Level(d, if d != Buzzer then on else v), on);
    Prepend(SetPin(Buzzer, false), p1, d, Level(d, on), on);
    assert Program(Msg(AllClear, 0)) == [SetPin(Buzzer, false)] + p1;
  }

  lemma ProgramBalanced(m: Msg, d: Device, on: bool)
    ensures Balanced(Program(m), d, Level(d, on), on)
  {
    hide Balanced;
    match m.cmd {
      case BuzzerOn => TimedBalanced(Buzzer, m.duration, d, on);
        assert Switch(Buzzer, true) + [] == Switch(Buzzer, true);
      case BuzzerOff => TimedBalanced(Buzzer, 0, d, on);
      case FanOn => FanOnBalanced(m.duration, d, on); TimedBalanced(Fan, 0, d, on);
        assert Switch(Fan, true) + [] == Switch(Fan, true);
      case FanOff => ResetBalanced(d, on);
      case AlarmOn => TimedBalanced(AlarmLed, m.duration, d, on);
        assert Switch(AlarmLed, true) + [] == Switch(AlarmLed, true);
      case AlarmOff => TimedBalanced(AlarmLed, 0, d, on);
      case NormalOn => TimedBalanced(NormalLed, 0, d, on);
      case NormalOff => TimedBalanced(NormalLed, 0, d, on);
      case AllClear => ClearBalanced(d, on);
        assert Program(m) == Program(Msg(AllClear, 0));
    }
  }

  /** The record of a device after the rest of a command, if the manual flag is as given when a timed fan
      is to be released. */
  function After(todo: seq<Op>, d: Device, on: bool, manual: bool): bool
    decreases |todo|
  {
    if todo == [] then on
    else
      var op := todo[0];
      After(todo[1..], d,
            if op.SetVar? && op.d == d then op.on else if op == ReleaseFan && d == Fan && !manual then false else on, manual)
  }

  lemma AfterCons(op: Op, rest: seq<Op>, d: Device, on: bool, manual: bool)
    ensures After([op] + rest, d, on, manual) ==
            After(rest, d, if op.SetVar? && op.d == d then op.on
                           else if op == ReleaseFan && d == Fan && !manual then false else on, manual)
  {
    assert ([op] + rest)[1..] == rest;
  }

  lemma AfterNothing(d: Device, on: bool, manual: bool)
    ensures After([], d, on, manual) == on
  {
  }

  lemma AfterSwitch(e: Device, v: bool, rest: seq<Op>, d: Device, on: bool, manual: bool)
    ensures After(Switch(e, v) + rest, d, on, manual) == After(rest, d, if d == e then v else on, manual)
  {
    hide After;
    AfterCons(SetPin(e, v), [SetVar(e, v)] + rest, d, on, manual);
    AfterCons(SetVar(e, v), rest, d, on, manual);
    assert Switch(e, v) + rest == [SetPin(e, v)] + ([SetVar(e, v)] + rest);
  }

  /** Accesses that set no record of d leave it. */
  lemma {:induction false} AfterOthers(todo: seq<Op>, rest: seq<Op>, d: Device, on: bool, manual: bool)
    requires forall i :: 0 <= i < |todo| ==> !(todo[i].SetVar? && todo[i].d == d) && todo[i] != ReleaseFan
    ensures After(todo + rest, d, on, manual) == After(rest, d, on, manual)
    decreases |todo|
  {
    if todo == [] {
      assert todo + rest == rest;
    } else {
      assert (todo + rest)[1..] == todo[1..] + rest;
      AfterOthers(todo[1..], rest, d, on, manual);
    }
  }

  /** What a command amounts to for device d, once it has been executed. */
  function Outcome(m: Msg, d: Device, on: bool, manual: bool): bool {
    match m.cmd
    case BuzzerOn => if d == Buzzer then m.duration == 0 else on
    case BuzzerOff => d != Buzzer && on
    case FanOn => if d == Fan then m.duration == 0 || manual else on
    case FanOff => d != Fan && on
    case AlarmOn => if d == AlarmLed then m.duration == 0 else on
    case AlarmOff => d != AlarmLed && on
    case NormalOn => d == NormalLed || on
    case NormalOff => d != NormalLed && on
    case AllClear => d == NormalLed
  }

  lemma TimedOutcome(e: Device, ms: nat, d: Device, on: bool, manual: bool)
    ensures After(Switch(e, true) + (if ms > 0 then [Delay(ms)] + Switch(e, false) else []), d, on, manual)
            == if d == e then ms == 0 else on
  {
    hide After;
    var z := if d == e then true else on;
    AfterNothing(d, z, manual);
    AfterSwitch(e, true, if ms > 0 then [Delay(ms)] + Switch(e, false) else [], d, on, manual);
    if ms > 0 {
      AfterCons(Delay(ms), Switch(e, false), d, z, manual);
      AfterSwitch(e, false, [], d, z, manual);
      assert Switch(e, false) + [] == Switch(e, false);
      AfterNothing(d, false, manual);
    }
  }

  lemma FanOutcome(ms: nat, d: Device, on: bool, manual: bool)
    ensures After(Switch(Fan, true) + (if ms > 0 then [Delay(ms), ReleaseFan] else []), d, on, manual)
            == if d == Fan then ms == 0 || manual else on
  {
    hide After;
    var z := if d == Fan then true else on;
    AfterNothing(d, z, manual);
    AfterSwitch(Fan, true, if ms > 0 then [Delay(ms), ReleaseFan] else [], d, on, manual);
    if ms > 0 {
      AfterCons(Delay(ms), [ReleaseFan], d, z, manual);
      AfterCons(ReleaseFan, [], d, z, manual);
      assert [Delay(ms)] + [ReleaseFan] == [Delay(ms), ReleaseFan] && [ReleaseFan] + [] == [ReleaseFan];
      AfterNothing(d, false, manual);
    }
  }

  lemma ResetOutcome(d: Device, on: bool, manual: bool)
    ensures After(FanReset(), d, on, manual) == (d != Fan && on)
  {
    hide After;
    AfterSwitch(Fan, false, [ManualOff, SinceZero], d, on, manual);
    AfterOthers([ManualOff, SinceZero], [], d, d != Fan && on, manual);
    AfterNothing(d, d != Fan && on, manual);
    assert FanReset() == Switch(Fan, false) + [ManualOff, SinceZero];
    assert [ManualOff, SinceZero] + [] == [ManualOff, SinceZero];
  }

  lemma ClearOutcome(d: Device, on: bool, manual: bool)
    ensures After(Program(Msg(AllClear, 0)), d, on, manual) == (d == NormalLed)
  {
    hide After;
    var p := Program(Msg(AllClear, 0));
    var i := match d case Buzzer => 4 case Fan => 5 case AlarmLed => 6 case NormalLed => 7;
    AfterOthers(p[..i], p[i..], d, on, manual);
    AfterCons(p[i], p[i + 1..], d, on, manual);
    AfterOthers(p[i + 1..], [], d, d == NormalLed, manual);
    AfterNothing(d, d == NormalLed, manual);
    assert p == p[..i] + p[i..] && p[i..] == [p[i]] + p[i + 1..] && p[i + 1..] + [] == p[i + 1..];
  }

  lemma ProgramOutcome(m: Msg, d: Device, on: bool, manual: bool)
    ensures After(Program(m), d, on, manual) == Outcome(m, d, on, manual)
  {
    hide After;
    match m.cmd {
      case BuzzerOn => TimedOutcome(Buzzer, m.duration, d, on, manual);
      case BuzzerOff => PlainOutcome(Buzzer, false, d, on, manual);
      case FanOn => FanOutcome(m.duration, d, on, manual);
      case FanOff => ResetOutcome(d, on, manual);
      case AlarmOn => TimedOutcome(AlarmLed, m.duration, d, on, manual);
      case AlarmOff => PlainOutcome(AlarmLed, false, d, on, manual);
      case NormalOn => PlainOutcome(NormalLed, true, d, on, manual);
      case NormalOff => PlainOutcome(NormalLed, false, d, on, manual);
      case AllClear => ClearOutcome(d, on, manual);
        assert Program(m) == Program(Msg(AllClear, 0));
    }
  }

  lemma PlainOutcome(e: Device, v: bool, d: Device, on: bool, manual: bool)
    ensures After(Switch(e, v), d, on, manual) == if d == e then v else on
  {
    hide After;
    AfterSwitch(e, v, [], d, on, manual);
    AfterNothing(d, if d == e then v else on, manual);
    assert Switch(e, v) + [] == Switch(e, v);
  }

  /** A BUZZER_ON that ends by itself. */
  predicate Quiet(m: Msg) {
    m.cmd == BuzzerOn ==> m.duration > 0
  }

  ghost predicate PinsInv(s: State) {
    forall d :: Balanced(s.todo, d, Get(s.pins, d), Get(s.vars, d))
  }

  ghost predicate QueueInv(s: State) {
    && |s.queue| <= QUEUE_SIZE && s.accepted == s.taken + s.queue
    && (forall i :: 0 <= i < |s.queue| ==> Quiet(s.queue[i]))
    && (s.monitor.Posting? ==> Quiet(s.monitor.m))
    && !After(s.todo, Buzzer, s.vars.buzzer, false)
    && (s.phase != Running && s.phase != Clearing ==> s.todo == [])
  }

  /** Setting a pin or a record. */
  lemma WriteBalanced(s: State, d: Device)
    requires s.todo != [] && (s.todo[0].SetPin? || s.todo[0].SetVar?)
    requires Balanced(s.todo, d, Get(s.pins, d), Get(s.vars, d))
    ensures var t := RunOp(s);
            Balanced(t.todo, d, Get(t.pins, d), Get(t.vars, d))
  {
    hide Balanced;
    var op, rest := s.todo[0], s.todo[1..];
    assert s.todo == [op] + rest;
    Prepend(op, rest, d, Get(s.pins, d), Get(s.vars, d));
  }

  /** One access on the pins and the records. */
  lemma OpBalanced(s: State, d: Device)
    requires s.todo != [] && Balanced(s.todo, d, Get(s.pins, d), Get(s.vars, d))
    ensures var t := RunOp(s);
            Balanced(t.todo, d, Get(t.pins, d), Get(t.vars, d))
  {
    hide Balanced, Get, Set, Level;
    var op, rest := s.todo[0], s.todo[1..];
    var pin, on := Get(s.pins, d), Get(s.vars, d);
    if op.SetPin? || op.SetVar? {
      WriteBalanced(s, d);
    } else {
      assert s.todo == [op] + rest;
      Prepend(op, rest, d, pin, on);
      if op.Delay? {
        Prepend(Sleep(s.now + op.ms), rest, d, pin, on);
      } else if op == ReleaseFan {
        SwitchBalanced(Fan, false, rest, d, pin, on);
        assert [] + rest == rest;
      }
    }
  }

  lemma Agreeing(s: State, d: Device)
    requires PinsInv(s) && (s.todo == [] || s.todo[0].Delay? || s.todo[0].Sleep?)
    ensures Get(s.pins, d) == Level(d, Get(s.vars, d))
  {
    assert Balanced(s.todo, d, Get(s.pins, d), Get(s.vars, d));
  }

  lemma PinsStep(s: State, timing: Timing, step: Step)
    requires PinsInv(s) && QueueInv(s) && Enabled(s, timing, step)
    ensures PinsInv(Do(s, timing, step))
  {
    hide Balanced, Program, QueueInv;
    var t := Do(s, timing, step);
    QueueIdle(s);
    forall d ensures Balanced(t.todo, d, Get(t.pins, d), Get(t.vars, d)) {
      if step == Next {
        OpBalanced(s, d);
      } else if step == Receive {
        Agreeing(s, d);
        ProgramBalanced(s.queue[0], d, Get(s.vars, d));
      } else if step == Check {
        Agreeing(s, d);
        ResetBalanced(d, Get(s.vars, d));
      }
    }
  }

  lemma QueueIdle(s: State)
    requires QueueInv(s)
    ensures s.phase == Waiting ==> s.todo == []
  {
  }

  lemma OpQuiet(s: State)
    requires s.todo != [] && !After(s.todo, Buzzer, s.vars.buzzer, false)
    ensures !After(RunOp(s).todo, Buzzer, RunOp(s).vars.buzzer, false)
  {
    hide After;
    var op, rest := s.todo[0], s.todo[1..];
    var b := s.vars.buzzer;
    assert s.todo == [op] + rest;
    AfterCons(op, rest, Buzzer, b, false);
    if op == ReleaseFan {
      AfterSwitch(Fan, false, rest, Buzzer, b, false);
      assert [] + rest == rest;
    } else if op.Delay? {
      AfterCons(Sleep(s.now + op.ms), rest, Buzzer, b, false);
    }
  }

  lemma EnqueueKeeps(s: State, m: Msg)
    requires QueueInv(s) && Quiet(m)
    ensures QueueInv(Enqueue(s, m))
  {
    hide After;
    assert s.taken + (s.queue + [m]) == s.taken + s.queue + [m];
  }

  lemma NextKeeps(s: State)
    requires QueueInv(s) && s.todo != []
    ensures QueueInv(RunOp(s))
  {
    hide After;
    OpQuiet(s);
  }

  lemma CheckKeeps(s: State)
    requires QueueInv(s) && s.todo == []
    ensures QueueInv(RunCheck(s))
  {
    hide After, Elapsed, FanReset;
    AfterNothing(Buzzer, s.vars.buzzer, false);
    ResetOutcome(Buzzer, s.vars.buzzer, false);
  }

  lemma ReceiveKeeps(s: State, timing: Timing)
    requires QueueInv(s) && Enabled(s, timing, Receive)
    ensures QueueInv(Do(s, timing, Receive))
  {
    hide After, Program, RunOp, RunCheck, Enqueue;
    AfterNothing(Buzzer, s.vars.buzzer, false);
    ProgramOutcome(s.queue[0], Buzzer, s.vars.buzzer, false);
    assert s.taken + s.queue == s.taken + [s.queue[0]] + s.queue[1..];
  }

  lemma QueueStep(s: State, timing: Timing, step: Step)
    requires QueueInv(s) && Enabled(s, timing, step)
    ensures QueueInv(Do(s, timing, step))
  {
    hide After, Program, RunOp, RunCheck, Enqueue;
    match step {
      case Next => NextKeeps(s);
      case Receive => ReceiveKeeps(s, timing);
      case Check => CheckKeeps(s);
      case Post(m) => EnqueueKeeps(s, m);
      case PostPress => EnqueueKeeps(s, s.monitor.m);
      case _ =>
    }
  }

  lemma {:induction false} PanelRun(s: State, timing: Timing, steps: seq<Step>)
    requires Initial(s) && Exec(s, timing, steps).Some?
    ensures var u := Exec(s, timing, steps).value;
            PinsInv(u) && QueueInv(u)
    decreases |steps|
  {
    hide Do, Enabled, PinsInv, QueueInv;
    if steps == [] {
      InitialPanel(s);
    } else {
      PanelRun(s, timing, steps[..|steps| - 1]);
      var u := Exec(s, timing, steps[..|steps| - 1]).value;
      PinsStep(u, timing, steps[|steps| - 1]);
      QueueStep(u, timing, steps[|steps| - 1]);
    }
  }

  lemma InitialPanel(s: State)
    requires Initial(s)
    ensures PinsInv(s) && QueueInv(s)
  {
  }

  /** In every run: whenever the actuator task waits for a command or lets a duration pass, every pin shows
      the recorded state of its device. */
  lemma {:induction false} PinsAgree(s: State, timing: Timing, steps: seq<Step>, d: Device)
    requires Initial(s) && Exec(s, timing, steps).Some?
    ensures var u := Exec(s, timing, steps).value;
            (u.phase == Waiting || (u.todo != [] && u.todo[0].Sleep?)) ==> Get(u.pins, d) == Level(d, Get(u.vars, d))
  {
    hide Exec, Balanced;
    PanelRun(s, timing, steps);
    var u := Exec(s, timing, steps).value;
    if u.phase == Waiting || (u.todo != [] && u.todo[0].Sleep?) {
      Agreeing(u, d);
    }
  }

  /** In every run: at the head of the loop the buzzer is off. */
  lemma {:induction false} BuzzerOffAtHead(s: State, timing: Timing, steps: seq<Step>)
    requires Initial(s) && Exec(s, timing, steps).Some? && Exec(s, timing, steps).value.phase == Waiting
    ensures var u := Exec(s, timing, steps).value;
            !u.vars.buzzer && !u.pins.buzzer
  {
    hide Exec;
    PanelRun(s, timing, steps);
    PinsAgree(s, timing, steps, Buzzer);
  }

  /** In every run: what has been executed is a prefix of what was accepted, in order, and at most eight
      commands are waiting. */
  lemma {:induction false} CommandsInOrder(s: State, timing: Timing, steps: seq<Step>)
    requires Initial(s) && Exec(s, timing, steps).Some?
    ensures var u := Exec(s, timing, steps).value;
            u.taken <= u.accepted && u.queue == u.accepted[|u.taken|..] && |u.queue| <= 8
  {
    hide Exec;
    PanelRun(s, timing, steps);
  }

  // What a command has done, in every run.

  /** The manual flag when the last timed fan was to be released. */
  function FlagAtRelease(s: State, timing: Timing, steps: seq<Step>): bool {
    if steps == [] then false
    else
      var before := Exec(s, timing, steps[..|steps| - 1]);
      if steps[|steps| - 1] == Next && before.Some? && before.value.todo != [] && before.value.todo[0] == ReleaseFan
      then before.value.manual
      else FlagAtRelease(s, timing, steps[..|steps| - 1])
  }

  /** Only the last access may be the release of a timed fan. */
  predicate ReleasesLast(todo: seq<Op>) {
    forall i :: 0 <= i < |todo| - 1 ==> todo[i] != ReleaseFan
  }

  /** What is left of the command makes its outcome of the record of d: for the flag that the release will find,
      or did find. */
  ghost predicate OnItsWay(u: State, m: Msg, d: Device, was: bool, held: bool) {
    && ReleasesLast(u.todo)
    && ((forall flag :: After(u.todo, d, Get(u.vars, d), flag) == Outcome(m, d, was, flag)) ||
        (ReleaseFan !in u.todo && forall flag :: After(u.todo, d, Get(u.vars, d), flag) == Outcome(m, d, was, held)))
  }

  lemma {:induction false} FlagFree(todo: seq<Op>, d: Device, on: bool, flag: bool, other: bool)
    requires ReleaseFan !in todo
    ensures After(todo, d, on, flag) == After(todo, d, on, other)
    decreases |todo|
  {
    if todo != [] {
      assert todo[0] in todo && forall o :: o in todo[1..] ==> o in todo;
      var op := todo[0];
      FlagFree(todo[1..], d, if op.SetVar? && op.d == d then op.on else on, flag, other);
    }
  }

  lemma ProgramReleases(m: Msg)
    ensures ReleasesLast(Program(m))
  {
  }

  /** An access other than the release, whatever the flag is. */
  lemma OpAfter(s: State, d: Device, flag: bool)
    requires s.todo != [] && s.todo[0] != ReleaseFan
    ensures After(RunOp(s).todo, d, Get(RunOp(s).vars, d), flag) == After(s.todo, d, Get(s.vars, d), flag)
  {
    hide After;
    var op, rest := s.todo[0], s.todo[1..];
    assert s.todo == [op] + rest;
    AfterCons(op, rest, d, Get(s.vars, d), flag);
    if op.Delay? { AfterCons(Sleep(s.now + op.ms), rest, d, Get(s.vars, d), flag); }
  }

  lemma ReleaseLeaves(s: State)
    requires s.todo == [ReleaseFan]
    ensures RunOp(s).todo == (if s.manual then [] else Switch(Fan, false)) && RunOp(s).vars == s.vars
    ensures ReleaseFan !in RunOp(s).todo && ReleasesLast(RunOp(s).todo)
  {
    assert s.todo[1..] == [];
  }

  lemma ReleaseAfter(s: State, d: Device, flag: bool)
    requires s.todo == [ReleaseFan]
    ensures After(RunOp(s).todo, d, Get(RunOp(s).vars, d), flag) == After(s.todo, d, Get(s.vars, d), s.manual)
  {
    hide After, RunOp, Get;
    var on := Get(s.vars, d);
    ReleaseLeaves(s);
    AfterCons(ReleaseFan, [], d, on, s.manual);
    assert [ReleaseFan] + [] == [ReleaseFan];
    if s.manual {
      AfterNothing(d, on, s.manual);
      AfterNothing(d, on, flag);
    } else {
      PlainOutcome(Fan, false, d, on, flag);
      AfterNothing(d, if d == Fan then false else on, s.manual);
    }
  }

  lemma OpOnItsWay(u: State, m: Msg, d: Device, was: bool, held: bool)
    requires u.todo != [] && OnItsWay(u, m, d, was, held)
    ensures OnItsWay(RunOp(u), m, d, was, if u.todo[0] == ReleaseFan then u.manual else held)
  {
    hide After, Outcome;
    var t := RunOp(u);
    if u.todo[0] == ReleaseFan {
      assert u.todo == [ReleaseFan];
      forall flag ensures After(t.todo, d, Get(t.vars, d), flag) == Outcome(m, d, was, u.manual) {
        ReleaseAfter(u, d, flag);
      }
      ReleaseLeaves(u);
    } else {
      forall flag ensures After(t.todo, d, Get(t.vars, d), flag) == After(u.todo, d, Get(u.vars, d), flag) {
        OpAfter(u, d, flag);
      }
      OpReleases(u);
    }
  }

  lemma OpReleases(u: State)
    requires u.todo != [] && u.todo[0] != ReleaseFan && ReleasesLast(u.todo)
    ensures ReleasesLast(RunOp(u).todo) && (ReleaseFan !in u.todo ==> ReleaseFan !in RunOp(u).todo)
  {
    var rest := u.todo[1..];
    assert forall i :: 0 <= i < |rest| ==> rest[i] == u.todo[i + 1];
  }

  lemma ReceivedOnItsWay(u: State, timing: Timing, d: Device, held: bool)
    requires Enabled(u, timing, Receive)
    ensures OnItsWay(Do(u, timing, Receive), u.queue[0], d, Get(u.vars, d), held)
  {
    hide After, Outcome, Program;
    var m := u.queue[0];
    ProgramReleases(m);
    forall flag ensures After(Program(m), d, Get(u.vars, d), flag) == Outcome(m, d, Get(u.vars, d), flag) {
      ProgramOutcome(m, d, Get(u.vars, d), flag);
    }
  }

  lemma {:induction false} OnItsWayRun(s: State, timing: Timing, steps: seq<Step>, n: nat, d: Device)
    requires Exec(s, timing, steps).Some? && n < |steps| && steps[n] == Receive
    requires forall i :: n < i < |steps| ==> steps[i] != Receive && steps[i] != Check
    ensures Exec(s, timing, steps[..n]).Some? && Exec(s, timing, steps[..n]).value.queue != []
    ensures var u := Exec(s, timing, steps[..n]).value;
            OnItsWay(Exec(s, timing, steps).value, u.queue[0], d, Get(u.vars, d), FlagAtRelease(s, timing, steps))
    decreases |steps|
  {
    hide OnItsWay, Program, RunOp, Get;
    var init, step := steps[..|steps| - 1], steps[|steps| - 1];
    assert init[..n] == steps[..n];
    var v := Exec(s, timing, init).value;
    if n == |init| {
      assert steps[..n] == init;
      ReceivedOnItsWay(v, timing, d, FlagAtRelease(s, timing, steps));
    } else {
      OnItsWayRun(s, timing, init, n, d);
      var u := Exec(s, timing, steps[..n]).value;
      if step == Next {
        OpOnItsWay(v, u.queue[0], d, Get(u.vars, d), FlagAtRelease(s, timing, init));
      } else {
        SameWay(v, Do(v, timing, step), u.queue[0], d, Get(u.vars, d), FlagAtRelease(s, timing, init));
      }
    }
  }

  lemma SameWay(u: State, t: State, m: Msg, d: Device, was: bool, held: bool)
    requires OnItsWay(u, m, d, was, held) && t.todo == u.todo && t.vars == u.vars
    ensures OnItsWay(t, m, d, was, held)
  {
  }

  /** In every run: when the command received in step n has been executed, every record is as its outcome says,
      with the manual flag as the release of a timed fan found it: that fan stays on exactly if it was then
      held by hand. */
  lemma OutcomeInEveryRun(s: State, timing: Timing, steps: seq<Step>, n: nat, d: Device)
    requires Exec(s, timing, steps).Some? && n < |steps| && steps[n] == Receive
    requires forall i :: n < i < |steps| ==> steps[i] != Receive && steps[i] != Check
    requires Exec(s, timing, steps).value.todo == []
    ensures Exec(s, timing, steps[..n]).Some? && Exec(s, timing, steps[..n]).value.queue != []
    ensures var u, v := Exec(s, timing, steps[..n]).value, Exec(s, timing, steps).value;
            Get(v.vars, d) == Outcome(u.queue[0], d, Get(u.vars, d), FlagAtRelease(s, timing, steps))
  {
    hide Exec, FlagAtRelease;
    OnItsWayRun(s, timing, steps, n, d);
    var u, v := Exec(s, timing, steps[..n]).value, Exec(s, timing, steps).value;
    AfterNothing(d, Get(v.vars, d), FlagAtRelease(s, timing, steps));
    assert After(v.todo, d, Get(v.vars, d), FlagAtRelease(s, timing, steps)) == Get(v.vars, d);
  }

  /** What is left of the command resets flag and stamp, or has done so. */
  predicate Resetting(u: State) {
    (ManualOff in u.todo || !u.manual) && (SinceZero in u.todo || u.since == 0)
  }

  lemma ResettingStep(u: State, timing: Timing, step: Step)
    requires Enabled(u, timing, step) && Resetting(u)
    requires step != Receive && step != Check && step != WriteManual && step != WriteStamp
    ensures Resetting(Do(u, timing, step))
  {
    hide Produced, Program;
    if step == Next { assert forall o :: o in u.todo ==> o == u.todo[0] || o in u.todo[1..]; }
  }

  lemma ResetProgram(m: Msg)
    requires m.cmd == FanOff || m.cmd == AllClear
    ensures ManualOff in Program(m) && SinceZero in Program(m)
  {
    assert Program(m)[|Program(m)| - 2] == ManualOff && Program(m)[|Program(m)| - 1] == SinceZero;
  }

  /** In every run: FAN_OFF and ALL_CLEAR leave neither flag nor stamp, if button 2 writes neither meanwhile. */
  lemma {:induction false} ResetInEveryRun(s: State, timing: Timing, steps: seq<Step>, n: nat)
    requires Exec(s, timing, steps).Some? && n < |steps| && steps[n] == Receive
    requires forall i :: n < i < |steps| ==>
               steps[i] != Receive && steps[i] != Check && steps[i] != WriteManual && steps[i] != WriteStamp
    ensures Exec(s, timing, steps[..n]).Some? && Exec(s, timing, steps[..n]).value.queue != []
    ensures var m, v := Exec(s, timing, steps[..n]).value.queue[0], Exec(s, timing, steps).value;
            m.cmd == FanOff || m.cmd == AllClear ==> Resetting(v) && (v.todo == [] ==> !v.manual && v.since == 0)
    decreases |steps|
  {
    hide Program, Resetting;
    var init, step := steps[..|steps| - 1], steps[|steps| - 1];
    assert init[..n] == steps[..n];
    var u := Exec(s, timing, init).value;
    if n == |init| {
      assert steps[..n] == init;
      if u.queue[0].cmd == FanOff || u.queue[0].cmd == AllClear { ResetBegins(u, timing); }
    } else {
      ResetInEveryRun(s, timing, init, n);
      if Resetting(u) { ResettingStep(u, timing, step); }
    }
    if Exec(s, timing, steps).value.todo == [] { ResetDone(Exec(s, timing, steps).value); }
  }

  lemma ResetBegins(u: State, timing: Timing)
    requires Enabled(u, timing, Receive) && (u.queue[0].cmd == FanOff || u.queue[0].cmd == AllClear)
    ensures Resetting(Do(u, timing, Receive))
  {
    hide Program;
    ResetProgram(u.queue[0]);
  }

  lemma ResetDone(u: State)
    requires u.todo == []
    ensures Resetting(u) ==> !u.manual && u.since == 0
  {
  }

  /** A command, of a poster or of button 2, is accepted exactly if fewer than eight are waiting. */
  lemma AcceptsExactly(s: State, timing: Timing, step: Step)
    requires Enabled(s, timing, step) && (step.Post? || step == PostPress)
    ensures var t, m := Do(s, timing, step), if step.Post? then step.m else s.monitor.m;
            if |s.queue| < 8 then t.queue == s.queue + [m] && t.accepted == s.accepted + [m]
            else t.queue == s.queue && t.accepted == s.accepted
  {
  }
}
