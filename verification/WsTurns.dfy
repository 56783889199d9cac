/** What the client task does in one turn of its loop, in every run of the two locks, its event handlers apart:
    at most one PING or CLOSE, and the main lock again after a failed poll and after the pause. */
module WsTurns {
  import opened Options
  import opened WsLocks

  /** Where the code of a thread is, its handlers apart. */
  function Base(pc: Pc): Pc {
    if pc.InHandler? then Base(pc.back) else pc
  }

  /** What the task has done in this turn that it has not made up for. */
  datatype Turn = Turn(started: bool, pollFailed: bool, paused: bool)

  /** One move of the task: a PING or CLOSE counts until the next turn begins, a failed poll until the abort under
      the main lock is over, the pause after the first receive until the main lock is taken again. */
  function TurnAfter(t: Turn, pc: Pc, move: Move): Turn {
    if pc == Head && move == Loop then t.(started := false)
    else if pc == Switch && (move == StartControl(Ping) || move == StartControl(Close)) then t.(started := true)
    else if pc == Tail && move == PollFails then t.(pollFailed := true)
    else if pc == PollAborting && move == Finish then t.(pollFailed := false)
    else if pc == ReadDone(true, true) && move == Finish then t.(paused := true)
    else if pc == WantLock(ToLeave) && move == TakeIt then t.(paused := false)
    else t
  }

  function TurnOf(s: State, steps: seq<Step>): Turn {
    if steps == [] then Turn(false, false, false)
    else
      var init, step := steps[..|steps| - 1], steps[|steps| - 1];
      var before := Exec(s, init);
      if step.tid == 0 && before.Some? && |before.value.pcs| > 0
      then TurnAfter(TurnOf(s, init), before.value.pcs[0], step.move)
      else TurnOf(s, init)
  }

  /** Where the task can then be. */
  predicate Fits(t: Turn, pc: Pc) {
    && (t.started ==> pc != Switch && pc != WantLock(ToSwitch))
    && (t.pollFailed ==> pc == WantLock(ToPollAbort) || pc == PollAborting)
    && (t.paused ==> pc == Pausing || pc == WantLock(ToLeave))
  }

  lemma TaskFits(t: Turn, pc: Pc, move: Move)
    requires TaskCode(pc, move).Some? && Fits(t, pc) && InTask(pc)
    ensures Fits(TurnAfter(t, pc, move), Base(TaskCode(pc, move).value.1))
  {
  }

  /** A handler comes back to where it was called. */
  lemma HandlerFits(t: Turn, pc: Pc, move: Move, inSenders: bool)
    requires Code(pc, move, inSenders).Some? && (pc.InHandler? || move == Handler)
    ensures Base(Code(pc, move, inSenders).value.1) == Base(pc)
    ensures TurnAfter(t, pc, move) == t
  {
  }

  lemma CodeFits(t: Turn, pc: Pc, move: Move, inSenders: bool)
    requires Code(pc, move, inSenders).Some? && Fits(t, Base(pc)) && !BySender(pc)
    ensures Fits(TurnAfter(t, pc, move), Base(Code(pc, move, inSenders).value.1))
  {
    hide Fits, TurnAfter, TaskCode, CallsHandlers;
    if pc.InHandler? || move == Handler {
      HandlerFits(t, pc, move, inSenders);
    } else {
      TaskFits(t, pc, move);
    }
  }

  /** In every run: the task starts at most one PING or CLOSE a turn; after a failed poll it does nothing before the
      abort, which it makes with the main lock held; and after the pause it takes the main lock again first. */
  lemma {:induction false} TurnInEveryRun(s: State, steps: seq<Step>)
    requires Initial(s) && Exec(s, steps).Some?
    ensures var u, t := Exec(s, steps).value, TurnOf(s, steps);
            && |u.pcs| > 0 && Fits(t, Base(u.pcs[0]))
            && (u.pcs[0] == PollAborting ==> u.main.owner == Some(0))
            && (u.pcs[0] == Head || u.pcs[0] == Tail ==> !t.pollFailed && !t.paused)
    decreases |steps|
  {
    hide Fits, Code, Inv, TurnAfter;
    RunKeeps(s, steps);
    var u := Exec(s, steps).value;
    InvParts(u);
    if steps == [] {
      NothingOwed(s);
    } else {
      var init, step := steps[..|steps| - 1], steps[|steps| - 1];
      TurnInEveryRun(s, init);
      RunKeeps(s, init);
      var v := Exec(s, init).value;
      InvParts(v);
      if step.tid == 0 { CodeFits(TurnOf(s, init), v.pcs[0], step.move, v.inSenders); }
    }
    if u.pcs[0] == Head || u.pcs[0] == Tail { FitsAt(TurnOf(s, steps), u.pcs[0]); }
  }

  lemma NothingOwed(s: State)
    requires Initial(s)
    ensures Fits(Turn(false, false, false), Base(s.pcs[0]))
  {
  }

  lemma FitsAt(t: Turn, pc: Pc)
    requires Fits(t, Base(pc)) && (pc == Head || pc == Tail)
    ensures !t.pollFailed && !t.paused
  {
  }

  lemma InvParts(s: State)
    requires Inv(s)
    ensures |s.pcs| > 0 && !BySender(s.pcs[0])
    ensures s.pcs[0] == PollAborting ==> s.main.owner == Some(0)
  {
    assert Held(s.main, 0) == MainDepth(s.pcs[0]);
  }

  /** So the task has not started another PING or CLOSE in this turn when it starts one. */
  lemma OneControlPerTurn(s: State, steps: seq<Step>, control: Control)
    requires Initial(s) && Exec(s, steps).Some? && (control == Ping || control == Close)
    requires Enabled(Exec(s, steps).value, 0, StartControl(control))
    ensures !TurnOf(s, steps).started
  {
    hide Exec, TurnOf;
    TurnInEveryRun(s, steps);
    OnlyInSwitch(Exec(s, steps).value, control);
  }

  lemma OnlyInSwitch(u: State, control: Control)
    requires Enabled(u, 0, StartControl(control)) && (control == Ping || control == Close) && |u.pcs| > 0
    ensures u.pcs[0] == Switch
  {
  }
}
