/** The two recursive locks of the build with a separate transmit lock: one client task and any number of
    senders. The event handlers that run in the task may send as well; whether those that run in a sender,
    on the ERROR event of a failed write, may do so is a parameter. */
module WsLocks {
  import opened Options

  datatype LockName = Main | Tx

  /** A recursive mutex. */
  datatype Mutex = Mutex(owner: Option<nat>, depth: nat)

  predicate CanTake(m: Mutex, tid: nat) {
    m.owner.None? || m.owner.value == tid
  }

  function Take(m: Mutex, tid: nat): Mutex {
    Mutex(Some(tid), if m.owner.None? then 1 else m.depth + 1)
  }

  /** Giving a lock that is not one's own has no effect. */
  function Give(m: Mutex, tid: nat): Mutex {
    if m.owner != Some(tid) then m
    else if m.depth <= 1 then Mutex(None, 0)
    else m.(depth := m.depth - 1)
  }

  /** A control frame of the task itself; a PONG is sent at the end of a receive. */
  datatype Control = Ping | Close | Pong(first: bool)

  /** What the task takes the main lock for, holding nothing. */
  datatype Goal = ToSwitch | ToRead | ToPollAbort | ToCloseReconnect | ToLeave | ToGiveUp(control: Control)

  /** How far a send is: wanting the transmit lock, writing with it, wanting the main lock after a failed
      write, or aborting the connection with that. */
  datatype Stage = Wanting | Writing | Failed | Aborting

  datatype Pc =
    // the client task
    | Head
    | WantLock(goal: Goal)
    | Switch
    | Leaving
    | Reading(first: bool)
    | WantTx(control: Control)
    | WantLockToo(control: Control)
    | WithBoth(control: Control)
    | ReadDone(first: bool, ok: bool)
    | Pausing
    | Tail
    | PollAborting
    | CloseReconnecting
    | Exited
    // a sender
    | Idle
    | Sending(stage: Stage)
    // a send by an event handler that was called at `back`
    | InHandler(stage: Stage, back: Pc)

  datatype Op = Nop | TakeOp(name: LockName) | GiveOp(name: LockName)

  datatype Move =
    | Loop | Stop | Finish | TakeIt | TimeOut | Write | WriteFails
    | StartControl(control: Control) | StartRead | Handler | EndRead(ok: bool)
    | PollReady | PollFails | CloseDone(reconnect: bool) | Send

  /** Whether event handlers run here, with the client connected. */
  predicate CallsHandlers(pc: Pc, inSenders: bool) {
    pc == Switch || pc == Leaving || pc.Reading? || pc == Pausing || pc == PollAborting ||
    (pc.InHandler? && pc.stage == Aborting) || (pc == Sending(Aborting) && inSenders)
  }

  /** Where the task goes once it has the main lock for `goal`. */
  function Reached(goal: Goal): Pc {
    match goal
    case ToSwitch => Switch
    case ToRead => Reading(false)
    case ToPollAbort => PollAborting
    case ToCloseReconnect => CloseReconnecting
    case ToLeave => Leaving
    case ToGiveUp(control) => if control.Pong? then ReadDone(control.first, false) else Leaving
  }

  /** The code: what a move does to the locks and where it leads, if it is possible at all. */
  function Code(pc: Pc, move: Move, inSenders: bool): Option<(Op, Pc)> {
    if move == Handler then (if CallsHandlers(pc, inSenders) then Some((Nop, InHandler(Wanting, pc))) else None)
    else if pc.InHandler? then
      var c := SendCode(pc.stage, move);
      if c.None? then None
      else Some((c.value.0, if c.value.1.Some? then InHandler(c.value.1.value, pc.back) else pc.back))
    else if pc.Sending? then
      var c := SendCode(pc.stage, move);
      if c.None? then None
      else Some((c.value.0, if c.value.1.Some? then Sending(c.value.1.value) else Idle))
    else if pc == Idle then (if move == Send then Some((Nop, Sending(Wanting))) else None)
    else TaskCode(pc, move)
  }

  function TaskCode(pc: Pc, move: Move): Option<(Op, Pc)> {
    match pc
    case Head =>
      if move == Loop then Some((Nop, WantLock(ToSwitch))) else if move == Stop then Some((Nop, Exited)) else None
    case WantLock(goal) => if move == TakeIt then Some((TakeOp(Main), Reached(goal))) else None
    case Switch =>
      if move == Finish then Some((Nop, Leaving))
      else if move.StartControl? && !move.control.Pong? then Some((GiveOp(Main), WantTx(move.control)))
      else if move == StartRead then Some((Nop, Reading(true)))
      else None
    case Leaving => if move == Finish then Some((GiveOp(Main), Tail)) else None
    case Reading(first) =>
      if move == StartControl(Pong(first)) then Some((GiveOp(Main), WantTx(Pong(first))))
      else if move.EndRead? then Some((Nop, ReadDone(first, move.ok)))
      else None
    case WantTx(control) =>
      if move == TakeIt then Some((TakeOp(Tx), WantLockToo(control)))
      else if move == TimeOut then Some((Nop, WantLock(ToGiveUp(control))))
      else None
    case WantLockToo(control) => if move == TakeIt then Some((TakeOp(Main), WithBoth(control))) else None
    case WithBoth(control) =>
      if move == Write then Some((GiveOp(Tx), if control.Pong? then ReadDone(control.first, true) else Leaving)) else None
    case ReadDone(first, ok) =>
      if move != Finish then None
      else if !first then Some((GiveOp(Main), Head))
      else if ok then Some((GiveOp(Main), Pausing))
      else Some((Nop, Leaving))
    case Pausing => if move == Finish then Some((Nop, WantLock(ToLeave))) else None
    case Tail =>
      if move == Loop then Some((Nop, Head))
      else if move == PollReady then Some((Nop, WantLock(ToRead)))
      else if move == PollFails then Some((Nop, WantLock(ToPollAbort)))
      else if move.CloseDone? then Some((Nop, if move.reconnect then WantLock(ToCloseReconnect) else Exited))
      else None
    case PollAborting => if move == Finish then Some((GiveOp(Main), Head)) else None
    case CloseReconnecting => if move == Finish then Some((GiveOp(Main), Head)) else None
    case _ => None
  }

  /** A send, by whomever; no next stage means that it returns. */
  function SendCode(stage: Stage, move: Move): Option<(Op, Option<Stage>)> {
    match stage
    case Wanting =>
      if move == TakeIt then Some((TakeOp(Tx), Some(Writing))) else if move == TimeOut then Some((Nop, None)) else None
    case Writing =>
      if move == Write then Some((GiveOp(Tx), None))
      else if move == WriteFails then Some((GiveOp(Tx), Some(Failed)))
      else None
    case Failed => if move == TakeIt then Some((TakeOp(Main), Some(Aborting))) else None
    case Aborting => if move == Finish then Some((GiveOp(Main), None)) else None
  }

  /** Thread 0 is the client task. */
  datatype State = State(main: Mutex, tx: Mutex, pcs: seq<Pc>, inSenders: bool)

  function LockOf(s: State, name: LockName): Mutex {
    if name == Main then s.main else s.tx
  }

  predicate Enabled(s: State, tid: nat, move: Move) {
    tid < |s.pcs| &&
    var c := Code(s.pcs[tid], move, s.inSenders);
    c.Some? && (c.value.0.TakeOp? ==> CanTake(LockOf(s, c.value.0.name), tid))
  }

  function Apply(s: State, tid: nat, op: Op): State {
    match op
    case Nop => s
    case TakeOp(name) => if name == Main then s.(main := Take(s.main, tid)) else s.(tx := Take(s.tx, tid))
    case GiveOp(name) => if name == Main then s.(main := Give(s.main, tid)) else s.(tx := Give(s.tx, tid))
  }

  function Do(s: State, tid: nat, move: Move): State
    requires Enabled(s, tid, move)
  {
    var (op, pc) := Code(s.pcs[tid], move, s.inSenders).value;
    Apply(s, tid, op).(pcs := s.pcs[tid := pc])
  }

  predicate Initial(s: State) {
    && s.main == Mutex(None, 0) && s.tx == Mutex(None, 0)
    && |s.pcs| > 0 && s.pcs[0] == Head && forall i :: 0 < i < |s.pcs| ==> s.pcs[i] == Idle
  }

  datatype Step = Step(tid: nat, move: Move)

  function Exec(s: State, steps: seq<Step>): Option<State> {
    if steps == [] then Some(s)
    else
      var before, step := Exec(s, steps[..|steps| - 1]), steps[|steps| - 1];
      if before.Some? && Enabled(before.value, step.tid, step.move) then Some(Do(before.value, step.tid, step.move)) else None
  }

  // The invariant: what a thread holds follows from where it is.

  function MainDepth(pc: Pc): nat {
    if pc.InHandler? then MainDepth(pc.back) + (if pc.stage == Aborting then 1 else 0)
    else if HasLock(pc) then 1
    else 0
  }

  predicate HasLock(pc: Pc) {
    pc == Switch || pc == Leaving || pc.Reading? || pc.WithBoth? || pc.ReadDone? || pc == PollAborting ||
    pc == CloseReconnecting || pc == Sending(Aborting)
  }

  function TxDepth(pc: Pc): nat {
    if pc.WantLockToo? || pc.WithBoth? || ((pc.InHandler? || pc.Sending?) && pc.stage == Writing) then 1 else 0
  }

  /** Handlers run only where they are called. */
  predicate WellNested(pc: Pc, inSenders: bool) {
    pc.InHandler? ==> CallsHandlers(pc.back, inSenders) && WellNested(pc.back, inSenders)
  }

  /** Whether it is a sender that is here, itself or in a handler. */
  predicate BySender(pc: Pc) {
    if pc.InHandler? then BySender(pc.back) else pc == Idle || pc.Sending?
  }

  /** The depth at which thread tid holds m. */
  function Held(m: Mutex, tid: nat): nat {
    if m.owner == Some(tid) then m.depth else 0
  }

  /** A mutex is held at some depth by one of n threads, or not at all. */
  predicate MutexOk(m: Mutex, n: nat) {
    if m.owner.Some? then m.owner.value < n && m.depth > 0 else m.depth == 0
  }

  ghost predicate Inv(s: State) {
    && |s.pcs| > 0
    && (forall i :: 0 <= i < |s.pcs| ==> BySender(s.pcs[i]) == (i > 0) && WellNested(s.pcs[i], s.inSenders))
    && (forall i :: 0 <= i < |s.pcs| ==> Held(s.main, i) == MainDepth(s.pcs[i]))
    && (forall i :: 0 <= i < |s.pcs| ==> Held(s.tx, i) == TxDepth(s.pcs[i]))
    && MutexOk(s.main, |s.pcs|) && MutexOk(s.tx, |s.pcs|)
  }

  /** A move changes what a thread holds as its old and new place say, and it stays the same thread. */
  ghost predicate Faithful(pc: Pc, c: (Op, Pc), inSenders: bool) {
    var (op, next) := c;
    && BySender(next) == BySender(pc) && WellNested(next, inSenders)
    && MainDepth(next) == MainDepth(pc) + (if op == TakeOp(Main) then 1 else if op == GiveOp(Main) then -1 else 0)
    && TxDepth(next) == TxDepth(pc) + (if op == TakeOp(Tx) then 1 else if op == GiveOp(Tx) then -1 else 0)
  }

  predicate InTask(pc: Pc) {
    !pc.InHandler? && !pc.Sending? && pc != Idle
  }

  /** A move of the task itself, and what it holds before and after. */
  predicate DepthsAgree(pc: Pc, c: (Op, Pc)) {
    var (op, next) := c;
    && InTask(next)
    && HasLock(next) == (if op == TakeOp(Main) then true else if op == GiveOp(Main) then false else HasLock(pc))
    && (op == TakeOp(Main) ==> !HasLock(pc)) && (op == GiveOp(Main) ==> HasLock(pc))
    && TxDepth(next) == TxDepth(pc) + (if op == TakeOp(Tx) then 1 else if op == GiveOp(Tx) then -1 else 0)
  }

  predicate InControl(pc: Pc) {
    pc.WantLock? || pc.WantTx? || pc.WantLockToo? || pc.WithBoth? || pc.ReadDone? || pc.Reading?
  }

  lemma ControlDepths(pc: Pc, move: Move)
    requires TaskCode(pc, move).Some? && InControl(pc)
    ensures DepthsAgree(pc, TaskCode(pc, move).value)
  {
  }

  lemma TailDepths(move: Move)
    requires TaskCode(Tail, move).Some?
    ensures DepthsAgree(Tail, TaskCode(Tail, move).value)
  {
  }

  lemma LoopDepths(pc: Pc, move: Move)
    requires TaskCode(pc, move).Some? && InTask(pc) && !InControl(pc) && pc != Tail
    ensures DepthsAgree(pc, TaskCode(pc, move).value)
  {
  }

  lemma TaskDepths(pc: Pc, move: Move)
    requires TaskCode(pc, move).Some? && InTask(pc)
    ensures DepthsAgree(pc, TaskCode(pc, move).value)
  {
    hide TaskCode, DepthsAgree;
    if InControl(pc) { ControlDepths(pc, move); } else if pc == Tail { TailDepths(move); } else { LoopDepths(pc, move); }
  }

  lemma TaskFaithful(pc: Pc, move: Move, inSenders: bool)
    requires TaskCode(pc, move).Some? && InTask(pc)
    ensures Faithful(pc, TaskCode(pc, move).value, inSenders)
  {
    hide TaskCode, HasLock, TxDepth;
    TaskDepths(pc, move);
  }

  lemma InHandlerDepths(stage: Stage, back: Pc, inSenders: bool)
    ensures MainDepth(InHandler(stage, back)) == MainDepth(back) + (if stage == Aborting then 1 else 0)
    ensures BySender(InHandler(stage, back)) == BySender(back)
    ensures WellNested(InHandler(stage, back), inSenders) <==> CallsHandlers(back, inSenders) && WellNested(back, inSenders)
    ensures CallsHandlers(back, inSenders) ==> TxDepth(back) == 0
  {
  }

  lemma SendFaithful(pc: Pc, move: Move, inSenders: bool)
    requires Code(pc, move, inSenders).Some? && pc.Sending? && move != Handler
    ensures Faithful(pc, Code(pc, move, inSenders).value, inSenders)
  {
    hide TaskCode, CallsHandlers;
  }

  /** What a stage of a send adds to what is held. */
  function StageMain(stage: Option<Stage>): nat {
    if stage == Some(Aborting) then 1 else 0
  }

  function StageTx(stage: Option<Stage>): nat {
    if stage == Some(Writing) then 1 else 0
  }

  lemma StageFaithful(stage: Stage, move: Move)
    requires SendCode(stage, move).Some?
    ensures var (op, next) := SendCode(stage, move).value;
            && StageMain(next) == StageMain(Some(stage)) + (if op == TakeOp(Main) then 1 else if op == GiveOp(Main) then -1 else 0)
            && StageTx(next) == StageTx(Some(stage)) + (if op == TakeOp(Tx) then 1 else if op == GiveOp(Tx) then -1 else 0)
  {
  }

  lemma HandlerFaithful(pc: Pc, move: Move, inSenders: bool)
    requires Code(pc, move, inSenders).Some? && WellNested(pc, inSenders) && pc.InHandler? && move != Handler
    ensures Faithful(pc, Code(pc, move, inSenders).value, inSenders)
  {
    StageFaithful(pc.stage, move);
    InHandlerDepths(pc.stage, pc.back, inSenders);
    var next := SendCode(pc.stage, move).value.1;
    if next.Some? { InHandlerDepths(next.value, pc.back, inSenders); }
    hide TaskCode, SendCode, MainDepth, BySender, WellNested, CallsHandlers, HasLock;
  }

  lemma EnterFaithful(pc: Pc, inSenders: bool)
    requires WellNested(pc, inSenders) && CallsHandlers(pc, inSenders)
    ensures Faithful(pc, (Nop, InHandler(Wanting, pc)), inSenders)
  {
  }

  lemma {:induction false} CodeFaithful(pc: Pc, move: Move, inSenders: bool)
    requires Code(pc, move, inSenders).Some? && WellNested(pc, inSenders)
    ensures Faithful(pc, Code(pc, move, inSenders).value, inSenders)
  {
    hide TaskCode, SendCode, Faithful, WellNested, CallsHandlers;
    if move == Handler {
      EnterFaithful(pc, inSenders);
    } else if pc.InHandler? {
      HandlerFaithful(pc, move, inSenders);
    } else if pc.Sending? {
      SendFaithful(pc, move, inSenders);
    } else if pc == Idle {
      IdleFaithful(inSenders);
    } else {
      TaskFaithful(pc, move, inSenders);
    }
  }

  lemma IdleFaithful(inSenders: bool)
    ensures Faithful(Idle, (Nop, Sending(Wanting)), inSenders)
  {
  }

  /** Without permission for senders, a handler that sends runs in the task. */
  lemma HandlersInTask(pc: Pc)
    requires WellNested(pc, false) && pc.InHandler?
    ensures !BySender(pc)
  {
    if pc.back.InHandler? {
      HandlersInTask(pc.back);
    }
  }

  lemma TakeHeld(m: Mutex, n: nat, tid: nat, i: nat)
    requires MutexOk(m, n) && CanTake(m, tid) && tid < n
    ensures MutexOk(Take(m, tid), n) && Held(Take(m, tid), i) == Held(m, i) + (if i == tid then 1 else 0)
  {
  }

  lemma GiveHeld(m: Mutex, n: nat, tid: nat, i: nat)
    requires MutexOk(m, n) && Held(m, tid) > 0
    ensures MutexOk(Give(m, tid), n) && Held(Give(m, tid), i) == Held(m, i) - (if i == tid then 1 else 0)
  {
  }

  lemma {:induction false} StepKeeps(s: State, tid: nat, move: Move)
    requires Inv(s) && Enabled(s, tid, move)
    ensures Inv(Do(s, tid, move)) && Do(s, tid, move).inSenders == s.inSenders
  {
    hide Code, MainDepth, TxDepth, BySender, WellNested, Held, MutexOk, Take, Give, CanTake;
    CodeFaithful(s.pcs[tid], move, s.inSenders);
    var op := Code(s.pcs[tid], move, s.inSenders).value.0;
    if op != Nop {
      var m := LockOf(s, op.name);
      forall i | 0 <= i < |s.pcs|
        ensures var t := LockOf(Do(s, tid, move), op.name);
                MutexOk(t, |s.pcs|) && Held(t, i) == Held(m, i) + (if i != tid then 0 else if op.TakeOp? then 1 else -1)
      {
        if op.TakeOp? { TakeHeld(m, |s.pcs|, tid, i); } else { GiveHeld(m, |s.pcs|, tid, i); }
      }
    }
  }

  lemma {:induction false} RunKeeps(s: State, steps: seq<Step>)
    requires Initial(s) && Exec(s, steps).Some?
    ensures Inv(Exec(s, steps).value) && Exec(s, steps).value.inSenders == s.inSenders
    decreases |steps|
  {
    hide Enabled, Do;
    if steps != [] {
      RunKeeps(s, steps[..|steps| - 1]);
      var step := steps[|steps| - 1];
      StepKeeps(Exec(s, steps[..|steps| - 1]).value, step.tid, step.move);
    }
  }

  // What it means.

  function StageWants(stage: Stage): Option<LockName> {
    if stage == Wanting then Some(Tx) else if stage == Failed then Some(Main) else None
  }

  /** The lock a thread is waiting for, or about to take. */
  function Wants(pc: Pc): Option<LockName> {
    match pc
    case WantLock(_) => Some(Main)
    case WantTx(_) => Some(Tx)
    case WantLockToo(_) => Some(Main)
    case InHandler(stage, _) => StageWants(stage)
    case Sending(stage) => StageWants(stage)
    case _ => None
  }

  /** p waits for a lock that q holds. */
  predicate BlockedOn(s: State, p: nat, q: nat) {
    p < |s.pcs| && p != q && Wants(s.pcs[p]).Some? && LockOf(s, Wants(s.pcs[p]).value).owner == Some(q)
  }

  function Following(c: seq<nat>, i: nat): nat
    requires i < |c|
  {
    c[if i + 1 == |c| then 0 else i + 1]
  }

  /** A cycle of waiting threads, of any length. */
  predicate Cycle(s: State, c: seq<nat>) {
    |c| > 0 && forall i: nat :: i < |c| ==> BlockedOn(s, c[i], Following(c, i))
  }

  /** A chain of waiting threads has at most two links. */
  lemma ChainEnds(s: State, p: nat, q: nat, r: nat, t: nat)
    requires Inv(s) && !s.inSenders && BlockedOn(s, p, q) && BlockedOn(s, q, r)
    ensures !BlockedOn(s, r, t)
  {
    HolderKnown(s, q);
    HolderKnown(s, r);
    if q > 0 && s.pcs[q].InHandler? { HandlersInTask(s.pcs[q]); }
    if r > 0 && s.pcs[r].InHandler? { HandlersInTask(s.pcs[r]); }
  }

  lemma HolderKnown(s: State, p: nat)
    requires Inv(s) && (s.main.owner == Some(p) || s.tx.owner == Some(p))
    ensures p < |s.pcs| && BySender(s.pcs[p]) == (p > 0) && WellNested(s.pcs[p], s.inSenders)
    ensures Held(s.main, p) == MainDepth(s.pcs[p]) && Held(s.tx, p) == TxDepth(s.pcs[p])
  {
  }

  /** In every run in which no handler sends from within a sender, there is never a cycle of threads that
      wait for each other. */
  lemma {:induction false} NoCycleInAnyRun(s: State, steps: seq<Step>, c: seq<nat>)
    requires Initial(s) && !s.inSenders && Exec(s, steps).Some?
    ensures !Cycle(Exec(s, steps).value, c)
  {
    hide Exec, Inv, BlockedOn, Initial;
    RunKeeps(s, steps);
    var u := Exec(s, steps).value;
    if Cycle(u, c) {
      var i := if |c| == 1 then 0 else 1;
      var j := if i + 1 == |c| then 0 else i + 1;
      var k := if j + 1 == |c| then 0 else j + 1;
      assert Following(c, 0) == c[i] && Following(c, i) == c[j] && Following(c, j) == c[k];
      ChainEnds(u, c[0], c[i], c[j], c[k]);
    }
  }

  lemma Extend(s: State, run: seq<Step>, u: State, tid: nat, move: Move) returns (run': seq<Step>, u': State)
    requires Exec(s, run) == Some(u) && Enabled(u, tid, move)
    ensures u' == Do(u, tid, move) && Exec(s, run') == Some(u')
  {
    hide Do, Enabled;
    run', u' := run + [Step(tid, move)], Do(u, tid, move);
    assert run'[..|run|] == run;
  }

  lemma TaskEnters(s: State) returns (run: seq<Step>, u: State)
    requires Initial(s)
    ensures Exec(s, run) == Some(u) && u == s.(main := Mutex(Some(0), 1), pcs := s.pcs[0 := Switch])
  {
    hide Exec, SendCode, CallsHandlers;
    NoSteps(s);
    run, u := Extend(s, [], s, 0, Loop);
    run, u := Extend(s, run, u, 0, TakeIt);
  }

  /** A sender has failed to write while the task is in its switch. */
  lemma SenderFails(s: State) returns (run: seq<Step>, u: State)
    requires Initial(s) && |s.pcs| > 1
    ensures Exec(s, run) == Some(u) && u == s.(main := Mutex(Some(0), 1), pcs := s.pcs[0 := Switch][1 := Sending(Failed)])
  {
    hide Exec, TaskCode, CallsHandlers;
    run, u := TaskEnters(s);
    run, u := Extend(s, run, u, 1, Send);
    run, u := Extend(s, run, u, 1, TakeIt);
    run, u := Extend(s, run, u, 1, WriteFails);
  }

  /** Otherwise there can be one: the ERROR handler of a failed send waits for the transmit lock with the
      main lock held, and the task has the transmit lock for a PING and waits for the main lock. */
  lemma {:induction false} CycleHappens(s: State) returns (run: seq<Step>)
    requires Initial(s) && s.inSenders && |s.pcs| > 1
    ensures Exec(s, run).Some? && Cycle(Exec(s, run).value, [0, 1])
  {
    hide Exec;
    var u: State;
    run, u := SenderFails(s);
    run, u := Extend(s, run, u, 0, StartControl(Ping));
    run, u := Extend(s, run, u, 1, TakeIt);
    run, u := Extend(s, run, u, 0, TakeIt);
    run, u := Extend(s, run, u, 1, Handler);
    assert u.pcs[0] == WantLockToo(Ping) && u.pcs[1] == InHandler(Wanting, Sending(Aborting));
    assert BlockedOn(u, 0, 1) && BlockedOn(u, 1, 0);
  }

  ghost predicate CycleReachable(s: State) {
    exists run: seq<Step>, c: seq<nat> :: Exec(s, run).Some? && Cycle(Exec(s, run).value, c)
  }

  /** With at least one sender, the threads can come to wait for each other in a cycle exactly if handlers
      may send from within a sender. */
  lemma CycleExactly(s: State)
    requires Initial(s) && |s.pcs| > 1
    ensures CycleReachable(s) <==> s.inSenders
  {
    hide Exec, Cycle;
    if s.inSenders {
      var run := CycleHappens(s);
    } else if CycleReachable(s) {
      var run, c :| Exec(s, run).Some? && Cycle(Exec(s, run).value, c);
      NoCycleInAnyRun(s, run, c);
    }
  }

  lemma NoSteps(s: State)
    ensures Exec(s, []) == Some(s)
  {
  }

  predicate Blocked(s: State, p: nat) {
    p < |s.pcs| && Wants(s.pcs[p]).Some? && !CanTake(LockOf(s, Wants(s.pcs[p]).value), p)
  }

  function SomeMove(pc: Pc): Move {
    if Wants(pc).Some? then TakeIt
    else if pc == Head || pc == Tail then Loop
    else if pc.Reading? then EndRead(true)
    else if Writes(pc) then Write
    else if pc == Idle then Send
    else Finish
  }

  /** A thread that is not blocked can move, unless the task has ended. */
  lemma UnblockedMoves(s: State, p: nat)
    requires p < |s.pcs| && s.pcs[p] != Exited && !Blocked(s, p)
    ensures Enabled(s, p, SomeMove(s.pcs[p]))
  {
  }

  /** In every such run, whoever is blocked is at most two links from a thread that holds a lock and can move. */
  lemma {:induction false} SomebodyMoves(s: State, steps: seq<Step>, p: nat) returns (q: nat)
    requires Initial(s) && !s.inSenders && Exec(s, steps).Some? && Blocked(Exec(s, steps).value, p)
    ensures var u := Exec(s, steps).value;
            && q < |u.pcs| && !Blocked(u, q) && Enabled(u, q, SomeMove(u.pcs[q]))
            && (u.main.owner == Some(q) || u.tx.owner == Some(q))
            && (BlockedOn(u, p, q) || exists r :: BlockedOn(u, p, r) && BlockedOn(u, r, q))
  {
    hide Exec, SomeMove;
    RunKeeps(s, steps);
    var u := Exec(s, steps).value;
    q := LockOf(u, Wants(u.pcs[p]).value).owner.value;
    assert BlockedOn(u, p, q);
    if Blocked(u, q) {
      var r := q;
      q := LockOf(u, Wants(u.pcs[r]).value).owner.value;
      assert BlockedOn(u, r, q);
      if Blocked(u, q) {
        ChainEnds(u, p, r, q, LockOf(u, Wants(u.pcs[q]).value).owner.value);
      }
    }
    HolderRuns(u, q);
    UnblockedMoves(u, q);
  }

  lemma HolderRuns(s: State, q: nat)
    requires Inv(s) && (s.main.owner == Some(q) || s.tx.owner == Some(q))
    ensures q < |s.pcs| && s.pcs[q] != Exited
  {
    assert Held(s.main, q) == MainDepth(s.pcs[q]) && Held(s.tx, q) == TxDepth(s.pcs[q]);
  }

  predicate Writes(pc: Pc) {
    pc.WithBoth? || ((pc.InHandler? || pc.Sending?) && pc.stage == Writing)
  }

  /** In every run, whoever sends: the task is at the head of its loop, and a sender out of its send, with
      neither lock held; at most one thread writes; and the transmit lock is never nested. */
  lemma {:induction false} LocksInEveryRun(s: State, steps: seq<Step>, i: nat, j: nat)
    requires Initial(s) && Exec(s, steps).Some?
    requires i < |Exec(s, steps).value.pcs| && j < |Exec(s, steps).value.pcs|
    ensures var u := Exec(s, steps).value;
            && (u.pcs[i] == Head || u.pcs[i] == Exited || u.pcs[i] == Idle ==> u.main.owner != Some(i) && u.tx.owner != Some(i))
            && (Writes(u.pcs[i]) && Writes(u.pcs[j]) ==> i == j)
            && u.tx.depth <= 1
  {
    hide Exec;
    RunKeeps(s, steps);
    var u := Exec(s, steps).value;
    assert Held(u.main, i) == MainDepth(u.pcs[i]) && Held(u.tx, i) == TxDepth(u.pcs[i]);
    assert Held(u.tx, j) == TxDepth(u.pcs[j]);
    assert u.tx.owner.Some? ==> Held(u.tx, u.tx.owner.value) == TxDepth(u.pcs[u.tx.owner.value]);
  }
}
