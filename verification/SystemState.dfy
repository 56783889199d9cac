/** The system state and the emergency counter, as a fold over the events. */
module SystemState {
  import opened Bytes

  datatype Status = Normal | Warning | Emergency | Critical

  datatype Event =
    | Unauthorized | SecurityBreach | DoorOpen | CriticalTemp | FireAlarm | GasLeak | Overheating
    | NoiseWarning | NoiseAlarm | Vibration | SystemOk | Unknown

  datatype State = State(status: Status, count: u32)

  predicate IsCritical(e: Event) {
    e == CriticalTemp || e == FireAlarm
  }

  predicate IsEmergency(e: Event) {
    e == GasLeak || e == Overheating || e == SecurityBreach || e == Unauthorized || e == NoiseAlarm || e == Vibration
  }

  predicate IsWarning(e: Event) {
    e == DoorOpen || e == NoiseWarning
  }

  function After(s: State, e: Event): State {
    if IsCritical(e) then State(Critical, (s.count + 1) % TWO32)
    else if IsEmergency(e) then State(Emergency, (s.count + 1) % TWO32)
    else if IsWarning(e) then (if s.status == Normal then s.(status := Warning) else s)
    else if e == SystemOk then s.(status := Normal)
    else s
  }

  function Run(h: seq<Event>): State {
    if h == [] then State(Normal, 0) else After(Run(h[..|h| - 1]), h[|h| - 1])
  }

  class System {
    var status: Status
    var emergencyCount: u32

    ghost function View(): State
      reads this
    {
      State(status, emergencyCount)
    }

    constructor ()
      ensures View() == Run([])
    {
      status, emergencyCount := Normal, 0;
    }

    /** update_system_state. */
    method Update(e: Event)
      modifies this
      ensures View() == After(old(View()), e)
    {
      match e
      case CriticalTemp | FireAlarm =>
        status := Critical;
        emergencyCount := (emergencyCount + 1) % TWO32;
      case GasLeak | Overheating | SecurityBreach | Unauthorized | NoiseAlarm | Vibration =>
        status := Emergency;
        emergencyCount := (emergencyCount + 1) % TWO32;
      case DoorOpen | NoiseWarning =>
        if status == Normal {
          status := Warning;
        }
      case SystemOk =>
        status := Normal;
      case Unknown =>
    }
  }

  // What the state is, by the events themselves.

  /** All events but the warnings and unknown ones. */
  predicate Decides(e: Event) {
    e !in {DoorOpen, NoiseWarning, Unknown}
  }

  predicate CountsAsEmergency(e: Event) {
    e in {CriticalTemp, FireAlarm, GasLeak, Overheating, SecurityBreach, Unauthorized, NoiseAlarm, Vibration}
  }

  predicate Undecided(w: seq<Event>) {
    forall i :: 0 <= i < |w| ==> !Decides(w[i])
  }

  predicate AnyWarning(w: seq<Event>) {
    exists i :: 0 <= i < |w| && (w[i] == DoorOpen || w[i] == NoiseWarning)
  }

  function CountEmergencies(h: seq<Event>): nat {
    if h == [] then 0
    else CountEmergencies(h[..|h| - 1]) + (if CountsAsEmergency(h[|h| - 1]) then 1 else 0)
  }

  lemma AnyWarningMore(v: seq<Event>, e: Event)
    ensures AnyWarning(v + [e]) <==> AnyWarning(v) || e == DoorOpen || e == NoiseWarning
  {
    var w := v + [e];
    assert w[|v|] == e;
    if AnyWarning(v) {
      var i :| 0 <= i < |v| && (v[i] == DoorOpen || v[i] == NoiseWarning);
      assert w[i] == v[i];
    }
    if AnyWarning(w) && e != DoorOpen && e != NoiseWarning {
      var i :| 0 <= i < |w| && (w[i] == DoorOpen || w[i] == NoiseWarning);
      assert v[i] == w[i];
    }
  }

  lemma RunMore(h: seq<Event>, e: Event)
    ensures Run(h + [e]) == After(Run(h), e)
  {
    assert (h + [e])[..|h|] == h;
  }

  /** Events that decide nothing only turn NORMAL into WARNING. */
  lemma {:induction false} UndecidedTail(h: seq<Event>, w: seq<Event>)
    requires Undecided(w)
    ensures Run(h + w).status == if Run(h).status == Normal && AnyWarning(w) then Warning else Run(h).status
    decreases |w|
  {
    hide Run, AnyWarning;
    if w == [] {
      NoWarning();
      assert h + w == h;
    } else {
      var v, e := w[..|w| - 1], w[|w| - 1];
      UndecidedTail(h, v);
      AnyWarningMore(v, e);
      RunMore(h + v, e);
      assert w == v + [e] && h + w == h + v + [e];
      assert !Decides(e);
    }
  }

  lemma NoWarning()
    ensures !AnyWarning([])
  {
  }

  /** The last critical, emergency or SYSTEM_OK event decides, whatever came before; only after a
      SYSTEM_OK, or with no such event, do the warnings since then matter. */
  lemma LastDecides(h: seq<Event>, d: Event, w: seq<Event>)
    requires Decides(d) && Undecided(w)
    ensures Run(h + [d] + w).status ==
            if d == CriticalTemp || d == FireAlarm then Critical
            else if d != SystemOk then Emergency
            else if AnyWarning(w) then Warning
            else Normal
    ensures Run(w).status == if AnyWarning(w) then Warning else Normal
  {
    var k := h + [d];
    assert k[..|k| - 1] == h && k[|k| - 1] == d;
    UndecidedTail(k, w);
    UndecidedTail([], w);
    assert [] + w == w;
  }

  /** Every history is of one of these two forms. */
  lemma {:induction false} Splits(h: seq<Event>) returns (before: seq<Event>, tail: seq<Event>)
    ensures h == before + tail && Undecided(tail)
    ensures before == [] || Decides(before[|before| - 1])
  {
    if h == [] || Decides(h[|h| - 1]) {
      before, tail := h, [];
    } else {
      before, tail := Splits(h[..|h| - 1]);
      tail := tail + [h[|h| - 1]];
    }
  }

  /** The counter is the number of critical and emergency events modulo 2^32. */
  lemma {:induction false} CounterCounts(h: seq<Event>)
    ensures Run(h).count == CountEmergencies(h) % TWO32
  {
    if h != [] {
      CounterCounts(h[..|h| - 1]);
    }
  }

  /** The events that the tasks of the firmware report. */
  predicate Reported(e: Event) {
    e in {Unauthorized, DoorOpen, CriticalTemp, Overheating, GasLeak, NoiseAlarm, Vibration}
  }

  /** With those, NORMAL is left by the first event and never entered again. */
  lemma {:induction false} NormalNeverAgain(h: seq<Event>)
    requires forall i :: 0 <= i < |h| ==> Reported(h[i])
    ensures Run(h).status == Normal <==> h == []
  {
    if h != [] {
      NormalNeverAgain(h[..|h| - 1]);
    }
  }
}
