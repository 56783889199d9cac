/** The broker as tasks that interleave: the accept loop, a handler per connection, and any number of
    tasks that publish. What runs under the mutex without sending is one step; broker_publish holds
    the mutex over many steps, one `send` each, between which everybody else may run. */
module BrokerProtocol {
  import opened Bytes
  import opened Options
  import opened RemainingLength
  import opened PacketHandler
  import opened BrokerTable

  /** What a task is doing inside a critical section: `i` and `k` are the client and the chunk that
      broker_publish has reached. */
  datatype Call = NoCall | Subscribing | Publishing(i: nat, k: nat)

  datatype Task =
    | Handler(idx: nat, sock: int, call: Call, ending: bool)
    | Other(call: Call)

  datatype Acceptor =
    | Waiting
    | Accepted(sock: int)
    | Registered(idx: nat, sock: int)
    | Undoing(idx: nat)

  /** One item of a client's stream: a chunk of a PUBLISH, or a reply of its own handler. */
  datatype Item = Piece(bytes: seq<byte>) | Control(bytes: seq<byte>)

  /** A call of broker_publish: its arguments, and the table when it got the mutex. */
  datatype Publication = Publication(topic: seq<byte>, payload: seq<byte>, qos: nat, pktId: nat, table: seq<Slot>)

  datatype State = State(
    slots: seq<Slot>, count: nat, pktId: nat,
    mutex: Option<nat>, acceptor: Acceptor, tasks: map<nat, Task>,
    known: set<int>, closed: set<int>,
    streams: map<int, seq<Item>>, history: seq<Publication>)

  datatype Step =
    | Arrive(sock: int)
    | Register(idx: int)
    | Spawn(tid: nat)
    | SpawnFails
    | UndoRegister
    | StartOther(tid: nat)
    | SetId(tid: nat, id: seq<byte>)
    | SendReply(tid: nat, bytes: seq<byte>)
    | SubscribeBegin(tid: nat)
    | SubscribeOne(tid: nat, filter: seq<byte>)
    | SubscribeEnd(tid: nat)
    | PublishBegin(tid: nat, topic: seq<byte>, payload: seq<byte>, qos: nat)
    | PublishSend(tid: nat)
    | PublishNext(tid: nat)
    | PublishEnd(tid: nat)
    | Leave(tid: nat)
    | Unregister(tid: nat)

  predicate WellTyped(s: State) {
    TableOk(s.slots) && s.pktId < 0x1_0000
  }

  function Stream(s: State, sock: int): seq<Item> {
    if sock in s.streams then s.streams[sock] else []
  }

  predicate PubOk(p: Publication) {
    && TableOk(p.table) && p.qos <= 2 && p.pktId < 0x1_0000
    && 0 !in p.topic && 0 !in p.payload && PublishLen(p.topic, p.payload, p.qos) < MAX_ENCODABLE
  }

  function Chunks(p: Publication): seq<seq<byte>>
    requires PubOk(p)
  {
    PublishChunks(p.topic, p.payload, p.qos, p.pktId)
  }

  predicate InPublish(s: State, tid: nat) {
    && tid in s.tasks && s.tasks[tid].call.Publishing?
    && s.history != [] && PubOk(s.history[|s.history| - 1])
  }

  function Current(s: State): Publication
    requires s.history != []
  {
    s.history[|s.history| - 1]
  }

  predicate IdleHandler(s: State, tid: nat) {
    tid in s.tasks && s.tasks[tid].Handler? && s.tasks[tid].call == NoCall && !s.tasks[tid].ending
    && s.tasks[tid].idx < |s.slots|
  }

  predicate Enabled(s: State, step: Step)
    requires WellTyped(s)
  {
    match step
    case Arrive(sock) => s.acceptor.Waiting? && sock !in s.known
    case Register(idx) =>
      && s.acceptor.Accepted? && s.mutex == None && -1 <= idx < |s.slots|
      && (forall j :: 0 <= j < (if idx < 0 then |s.slots| else idx) ==> s.slots[j].active)
      && (idx >= 0 ==> !s.slots[idx].active)
    case Spawn(tid) => s.acceptor.Registered? && tid !in s.tasks
    case SpawnFails => s.acceptor.Registered?
    case UndoRegister => s.acceptor.Undoing? && s.mutex == None && s.acceptor.idx < |s.slots|
    case StartOther(tid) => tid !in s.tasks
    case SetId(tid, _) => IdleHandler(s, tid) && s.mutex == None
    case SendReply(tid, _) => IdleHandler(s, tid)
    case SubscribeBegin(tid) => IdleHandler(s, tid) && s.mutex == None
    case SubscribeOne(tid, _) =>
      && tid in s.tasks && s.tasks[tid].Handler? && s.tasks[tid].call.Subscribing?
      && s.tasks[tid].idx < |s.slots| && s.slots[s.tasks[tid].idx].subCount < MAX_SUBS_PER_CLIENT
    case SubscribeEnd(tid) => tid in s.tasks && s.tasks[tid].call.Subscribing?
    case PublishBegin(tid, topic, payload, qos) =>
      && tid in s.tasks && s.tasks[tid].call == NoCall && !(s.tasks[tid].Handler? && s.tasks[tid].ending)
      && s.mutex == None && PubOk(Publication(topic, payload, qos, s.pktId, s.slots))
    case PublishSend(tid) =>
      && InPublish(s, tid) && s.tasks[tid].call.i < |s.slots|
      && Wants(s.slots[s.tasks[tid].call.i], Current(s).topic) && s.tasks[tid].call.k < |Chunks(Current(s))|
    case PublishNext(tid) =>
      && InPublish(s, tid) && s.tasks[tid].call.i < |s.slots|
      && (Wants(s.slots[s.tasks[tid].call.i], Current(s).topic) ==> s.tasks[tid].call.k == |Chunks(Current(s))|)
    case PublishEnd(tid) => InPublish(s, tid) && s.tasks[tid].call.i == |s.slots|
    case Leave(tid) => IdleHandler(s, tid)
    case Unregister(tid) =>
      && tid in s.tasks && s.tasks[tid].Handler? && s.tasks[tid].ending && s.tasks[tid].idx < |s.slots|
      && s.mutex == None
  }

  function Calls(s: State, tid: nat, call: Call): map<nat, Task>
    requires tid in s.tasks
  {
    s.tasks[tid := s.tasks[tid].(call := call)]
  }

  function WithSlot(s: State, idx: nat, slot: Slot): State
    requires idx < |s.slots|
  {
    s.(slots := s.slots[idx := slot])
  }

  /** broker_free_client on entry `idx`. */
  function FreeSlot(s: State, idx: nat): State
    requires idx < |s.slots|
  {
    if s.slots[idx].active then
      s.(slots := s.slots[idx := Freed(s.slots[idx])], closed := s.closed + {s.slots[idx].sock},
         count := if s.count > 0 then s.count - 1 else 0)
    else s
  }

  function Put(s: State, sock: int, item: Item): State {
    s.(streams := s.streams[sock := Stream(s, sock) + [item]])
  }

  function Do(s: State, step: Step): State
    requires WellTyped(s) && Enabled(s, step)
  {
    match step
    case Arrive(sock) => s.(acceptor := Accepted(sock), known := s.known + {sock})
    case Register(idx) =>
      var sock := s.acceptor.sock;
      if idx < 0 then s.(acceptor := Waiting, closed := s.closed + {sock})
      else WithSlot(s, idx, Filled(s.slots[idx], sock)).(count := s.count + 1, acceptor := Registered(idx, sock))
    case Spawn(tid) =>
      s.(acceptor := Waiting, tasks := s.tasks[tid := Handler(s.acceptor.idx, s.acceptor.sock, NoCall, false)])
    case SpawnFails => s.(acceptor := Undoing(s.acceptor.idx))
    case UndoRegister => FreeSlot(s, s.acceptor.idx).(acceptor := Waiting)
    case StartOther(tid) => s.(tasks := s.tasks[tid := Other(NoCall)])
    case SetId(tid, id) => WithSlot(s, s.tasks[tid].idx, Named(s.slots[s.tasks[tid].idx], id))
    case SendReply(tid, bytes) => Put(s, s.tasks[tid].sock, Control(bytes))
    case SubscribeBegin(tid) => s.(mutex := Some(tid), tasks := Calls(s, tid, Subscribing))
    case SubscribeOne(tid, filter) =>
      WithSlot(s, s.tasks[tid].idx, Subscribed(s.slots[s.tasks[tid].idx], filter))
    case SubscribeEnd(tid) => s.(mutex := None, tasks := Calls(s, tid, NoCall))
    case PublishBegin(tid, topic, payload, qos) =>
      s.(mutex := Some(tid), tasks := Calls(s, tid, Publishing(0, 0)),
         history := s.history + [Publication(topic, payload, qos, s.pktId, s.slots)])
    case PublishSend(tid) =>
      var c := s.tasks[tid].call;
      Put(s, s.slots[c.i].sock, Piece(Chunks(Current(s))[c.k])).(tasks := Calls(s, tid, Publishing(c.i, c.k + 1)))
    case PublishNext(tid) => s.(tasks := Calls(s, tid, Publishing(s.tasks[tid].call.i + 1, 0)))
    case PublishEnd(tid) =>
      s.(mutex := None, tasks := Calls(s, tid, NoCall),
         pktId := if Current(s).qos > 0 then (s.pktId + 1) % 0x1_0000 else s.pktId)
    case Leave(tid) => s.(tasks := s.tasks[tid := s.tasks[tid].(ending := true)])
    case Unregister(tid) => FreeSlot(s, s.tasks[tid].idx).(tasks := s.tasks - {tid})
  }

  // What every step keeps.

  predicate SocketsOpen(s: State) {
    && DistinctSockets(s.slots)
    && (forall i :: 0 <= i < |s.slots| && s.slots[i].active ==> s.slots[i].sock in s.known - s.closed)
    && s.closed <= s.known
    && (s.acceptor.Accepted? ==>
          && s.acceptor.sock in s.known - s.closed
          && forall i :: 0 <= i < |s.slots| && s.slots[i].active ==> s.slots[i].sock != s.acceptor.sock)
  }

  predicate TableInv(s: State) {
    WellTyped(s) && s.count == CountActive(s.slots) && SocketsOpen(s)
  }

  predicate AcceptorOwns(s: State, idx: nat) {
    (s.acceptor.Registered? || s.acceptor.Undoing?) && s.acceptor.idx == idx
  }

  predicate HandlerOwns(s: State, tid: nat, idx: nat) {
    tid in s.tasks && s.tasks[tid].Handler? && s.tasks[tid].idx == idx
  }

  /** An entry is active exactly while it has an owner, and it never has two. */
  ghost predicate OwnerInv(s: State) {
    && (forall idx: nat :: AcceptorOwns(s, idx) ==> idx < |s.slots| && s.slots[idx].active)
    && (s.acceptor.Registered? && s.acceptor.idx < |s.slots| ==> s.slots[s.acceptor.idx].sock == s.acceptor.sock)
    && (forall tid, idx: nat :: HandlerOwns(s, tid, idx) ==>
          idx < |s.slots| && s.slots[idx].active && s.slots[idx].sock == s.tasks[tid].sock && !AcceptorOwns(s, idx))
    && (forall t1, t2, idx: nat :: HandlerOwns(s, t1, idx) && HandlerOwns(s, t2, idx) ==> t1 == t2)
    && (forall idx: nat :: idx < |s.slots| && s.slots[idx].active ==>
          AcceptorOwns(s, idx) || exists tid :: HandlerOwns(s, tid, idx))
  }

  predicate MutexInv(s: State) {
    && (forall tid :: tid in s.tasks ==> (s.tasks[tid].call != NoCall <==> s.mutex == Some(tid)))
    && (s.mutex.Some? ==> s.mutex.value in s.tasks)
    && (forall tid :: tid in s.tasks && s.tasks[tid].Handler? && s.tasks[tid].ending ==> s.tasks[tid].call == NoCall)
  }

  /** The chunks of PUBLISH packets in a stream, in order. */
  function Pieces(items: seq<Item>): seq<seq<byte>> {
    if items == [] then []
    else
      var last := items[|items| - 1];
      Pieces(items[..|items| - 1]) + (if last.Piece? then [last.bytes] else [])
  }

  predicate HistoryOk(h: seq<Publication>) {
    forall i :: 0 <= i < |h| ==> PubOk(h[i]) && DistinctSockets(h[i].table)
  }

  /** Whole frames, one per publication whose table gave the client a matching filter. */
  function Frames(h: seq<Publication>, sock: int): seq<seq<byte>>
    requires HistoryOk(h)
    decreases |h|
  {
    if h == [] then []
    else
      var p := h[|h| - 1];
      Frames(h[..|h| - 1], sock) + (if Selected(p.table, p.topic, sock) then Chunks(p) else [])
  }

  /** What the publication in progress has given a client when it has reached client i, chunk k. */
  function Progress(p: Publication, i: nat, k: nat, sock: int): seq<seq<byte>>
    requires PubOk(p) && i <= |p.table| && k <= |Chunks(p)|
  {
    if Selected(p.table[..i], p.topic, sock) then Chunks(p)
    else if i < |p.table| && p.table[i].sock == sock && Wants(p.table[i], p.topic) then Chunks(p)[..k]
    else []
  }

  predicate Active(s: State) {
    s.mutex.Some? && s.mutex.value in s.tasks && s.tasks[s.mutex.value].call.Publishing?
  }

  predicate PublishInv(s: State) {
    && HistoryOk(s.history)
    && (Active(s) ==>
          var c := s.tasks[s.mutex.value].call;
          && s.history != []
          && Current(s).table == s.slots && Current(s).pktId == s.pktId
          && c.i <= |s.slots| && c.k <= |Chunks(Current(s))|
          && (c.k > 0 ==> c.i < |s.slots| && Wants(s.slots[c.i], Current(s).topic)))
  }

  function Expected(s: State, sock: int): seq<seq<byte>>
    requires PublishInv(s)
  {
    if Active(s) then
      var c := s.tasks[s.mutex.value].call;
      Frames(s.history[..|s.history| - 1], sock) + Progress(Current(s), c.i, c.k, sock)
    else Frames(s.history, sock)
  }

  ghost predicate StreamInv(s: State) {
    PublishInv(s) && forall sock :: Pieces(Stream(s, sock)) == Expected(s, sock)
  }

  ghost predicate Inv(s: State) {
    TableInv(s) && OwnerInv(s) && MutexInv(s) && StreamInv(s)
  }

  predicate CountInv(s: State) {
    WellTyped(s) && s.count == CountActive(s.slots)
  }

  /** Changing one entry to a good one changes the count by what it is worth. */
  lemma EntryChanged(s: State, idx: nat, slot: Slot)
    requires CountInv(s) && idx < |s.slots| && SlotOk(slot)
    ensures TableOk(s.slots[idx := slot])
    ensures CountActive(s.slots[idx := slot])
            == s.count + (if slot.active then 1 else 0) - (if s.slots[idx].active then 1 else 0)
  {
    CountUpdate(s.slots, idx, slot);
  }

  lemma FreeKeepsCount(s: State, idx: nat)
    requires CountInv(s) && idx < |s.slots|
    ensures CountInv(FreeSlot(s, idx))
  {
    if s.slots[idx].active {
      SlotsStayOk(s.slots[idx], 0, []);
      EntryChanged(s, idx, Freed(s.slots[idx]));
    }
  }

  lemma CountKept(s: State, step: Step)
    requires CountInv(s) && Enabled(s, step)
    ensures CountInv(Do(s, step))
  {
    hide SlotOk, TableOk, CStr, Wants, PublishChunks, CountActive, StrNCpy;
    assert forall i :: 0 <= i < |s.slots| ==> SlotOk(s.slots[i]) by { SlotsOk(s.slots); }
    match step
    case Register(idx) =>
      if idx >= 0 {
        SlotsStayOk(s.slots[idx], s.acceptor.sock, []);
        EntryChanged(s, idx, Filled(s.slots[idx], s.acceptor.sock));
      }
    case UndoRegister => FreeKeepsCount(s, s.acceptor.idx);
    case Unregister(tid) => FreeKeepsCount(s, s.tasks[tid].idx);
    case SetId(tid, id) =>
      var idx := s.tasks[tid].idx;
      SlotsStayOk(s.slots[idx], 0, id);
      EntryChanged(s, idx, Named(s.slots[idx], id));
    case SubscribeOne(tid, filter) =>
      var idx := s.tasks[tid].idx;
      SlotsStayOk(s.slots[idx], 0, filter);
      EntryChanged(s, idx, Subscribed(s.slots[idx], filter));
    case _ =>
  }

  lemma SlotsOk(t: seq<Slot>)
    requires TableOk(t)
    ensures |t| == MQTT_MAX_CLIENTS && forall i :: 0 <= i < |t| ==> SlotOk(t[i])
  {
  }

  lemma TableKept(s: State, step: Step)
    requires TableInv(s) && Enabled(s, step)
    ensures TableInv(Do(s, step))
  {
    hide SlotOk, TableOk, CStr, Wants, PublishChunks, CountActive, StrNCpy;
    CountKept(s, step);
  }

  /** Steps after which the entries are as active as before and belong to the same tasks. */
  lemma OwnersSame(s: State, s': State)
    requires OwnerInv(s) && |s'.slots| == |s.slots|
    requires forall i :: 0 <= i < |s.slots| ==> s'.slots[i].active == s.slots[i].active && s'.slots[i].sock == s.slots[i].sock
    requires forall tid, idx: nat :: HandlerOwns(s', tid, idx) <==> HandlerOwns(s, tid, idx)
    requires forall tid :: tid in s.tasks && s.tasks[tid].Handler? ==>
               tid in s'.tasks && s'.tasks[tid].Handler? && s'.tasks[tid].sock == s.tasks[tid].sock
    requires forall idx: nat :: AcceptorOwns(s', idx) <==> AcceptorOwns(s, idx)
    requires s'.acceptor.Registered? ==> s'.acceptor == s.acceptor
    ensures OwnerInv(s')
  {
    forall idx: nat | idx < |s'.slots| && s'.slots[idx].active
      ensures AcceptorOwns(s', idx) || exists tid :: HandlerOwns(s', tid, idx)
    {
      if !AcceptorOwns(s, idx) {
        var tid :| HandlerOwns(s, tid, idx);
        assert HandlerOwns(s', tid, idx);
      }
    }
  }

  lemma OwnerRegister(s: State, idx: nat)
    requires Inv(s) && Enabled(s, Register(idx))
    ensures OwnerInv(Do(s, Register(idx)))
  {
    hide SocketsOpen, TableOk, MutexInv, StreamInv;
    var s' := Do(s, Register(idx));
    assert AcceptorOwns(s', idx) && forall j: nat :: !AcceptorOwns(s, j);
    assert forall tid, j: nat :: HandlerOwns(s', tid, j) <==> HandlerOwns(s, tid, j);
    forall j: nat | j < |s'.slots| && s'.slots[j].active
      ensures AcceptorOwns(s', j) || exists tid :: HandlerOwns(s', tid, j)
    {
      if j != idx {
        var tid :| HandlerOwns(s, tid, j);
        assert HandlerOwns(s', tid, j);
      }
    }
  }

  lemma OwnerSpawn(s: State, tid: nat)
    requires Inv(s) && Enabled(s, Spawn(tid))
    ensures OwnerInv(Do(s, Spawn(tid)))
  {
    hide SocketsOpen, TableOk, MutexInv, StreamInv;
    var s' := Do(s, Spawn(tid));
    var idx := s.acceptor.idx;
    assert AcceptorOwns(s, idx) && HandlerOwns(s', tid, idx) && forall j: nat :: !AcceptorOwns(s', j);
    assert forall t, j: nat :: HandlerOwns(s', t, j) && t != tid ==> HandlerOwns(s, t, j);
    forall j: nat | j < |s'.slots| && s'.slots[j].active
      ensures exists t :: HandlerOwns(s', t, j)
    {
      if j != idx {
        assert !AcceptorOwns(s, j);
        var t :| HandlerOwns(s, t, j);
        assert HandlerOwns(s', t, j);
      }
    }
  }

  lemma OwnerUndo(s: State)
    requires Inv(s) && Enabled(s, UndoRegister)
    ensures OwnerInv(Do(s, UndoRegister))
  {
    hide SocketsOpen, TableOk, MutexInv, StreamInv;
    var s' := Do(s, UndoRegister);
    var idx := s.acceptor.idx;
    assert AcceptorOwns(s, idx) && forall j: nat :: !AcceptorOwns(s', j);
    assert forall t, j: nat :: HandlerOwns(s', t, j) <==> HandlerOwns(s, t, j);
    forall j: nat | j < |s'.slots| && s'.slots[j].active
      ensures exists t :: HandlerOwns(s', t, j)
    {
      assert j != idx && !AcceptorOwns(s, j);
      var t :| HandlerOwns(s, t, j);
      assert HandlerOwns(s', t, j);
    }
  }

  lemma OwnerUnregister(s: State, tid: nat)
    requires Inv(s) && Enabled(s, Unregister(tid))
    ensures OwnerInv(Do(s, Unregister(tid)))
  {
    hide SocketsOpen, TableOk, MutexInv, StreamInv;
    var s' := Do(s, Unregister(tid));
    var idx := s.tasks[tid].idx;
    assert HandlerOwns(s, tid, idx);
    assert forall j: nat :: AcceptorOwns(s', j) <==> AcceptorOwns(s, j);
    assert forall t, j: nat :: HandlerOwns(s', t, j) <==> t != tid && HandlerOwns(s, t, j);
    forall j: nat | j < |s'.slots| && s'.slots[j].active
      ensures AcceptorOwns(s', j) || exists t :: HandlerOwns(s', t, j)
    {
      assert j != idx;
      if !AcceptorOwns(s, j) {
        var t :| HandlerOwns(s, t, j);
        assert HandlerOwns(s', t, j);
      }
    }
  }

  /** The steps of the accept loop and the end of a handler. */
  predicate MovesOwner(step: Step) {
    step.Register? || step.Spawn? || step.UndoRegister? || step.Unregister?
  }

  lemma OwnerMoved(s: State, step: Step)
    requires Inv(s) && Enabled(s, step) && MovesOwner(step)
    ensures OwnerInv(Do(s, step))
  {
    hide SocketsOpen, TableOk, MutexInv, StreamInv, OwnerInv, CStr, Wants, PublishChunks, StrNCpy, SlotOk;
    match step
    case Register(idx) =>
      if idx >= 0 { OwnerRegister(s, idx); } else { OwnersSame(s, Do(s, step)); }
    case Spawn(tid) => OwnerSpawn(s, tid);
    case UndoRegister => OwnerUndo(s);
    case Unregister(tid) => OwnerUnregister(s, tid);
  }

  predicate Publishes(step: Step) {
    step.PublishBegin? || step.PublishSend? || step.PublishNext? || step.PublishEnd?
  }

  lemma OwnerPublishing(s: State, step: Step)
    requires Inv(s) && Enabled(s, step) && Publishes(step)
    ensures OwnerInv(Do(s, step))
  {
    hide SocketsOpen, TableOk, MutexInv, StreamInv, OwnerInv, CStr, Wants, PublishChunks, StrNCpy, SlotOk;
    OwnersSame(s, Do(s, step));
  }

  lemma OwnerKept(s: State, step: Step)
    requires Inv(s) && Enabled(s, step)
    ensures OwnerInv(Do(s, step))
  {
    hide SocketsOpen, TableOk, MutexInv, StreamInv, OwnerInv, CStr, Wants, PublishChunks, StrNCpy, SlotOk;
    if MovesOwner(step) {
      OwnerMoved(s, step);
    } else if Publishes(step) {
      OwnerPublishing(s, step);
    } else {
      OwnersSame(s, Do(s, step));
    }
  }

  /** Steps that leave the mutex alone: at most, one task of the same kind and call replaces another. */
  lemma MutexSame(s: State, s': State)
    requires MutexInv(s) && s'.mutex == s.mutex
    requires forall t :: t in s.tasks && s.tasks[t].call != NoCall ==> t in s'.tasks
    requires forall t :: t in s'.tasks ==>
               if t in s.tasks then s'.tasks[t].call.NoCall? == s.tasks[t].call.NoCall? else s'.tasks[t].call == NoCall
    requires forall t :: t in s'.tasks && s'.tasks[t].Handler? && s'.tasks[t].ending ==> s'.tasks[t].call == NoCall
    requires s.mutex.Some? ==> s.mutex.value in s'.tasks
    ensures MutexInv(s')
  {
    assert forall t :: t !in s.tasks ==> s.mutex != Some(t);
  }

  lemma MutexTaken(s: State, step: Step)
    requires Inv(s) && Enabled(s, step)
    requires step.SubscribeBegin? || step.PublishBegin? || step.SubscribeEnd? || step.PublishEnd?
    ensures MutexInv(Do(s, step))
  {
    hide StreamInv, TableOk, CStr, Wants, PublishChunks, StrNCpy, SlotOk, OwnerInv, PubOk, SocketsOpen;
    assert forall t :: t in s.tasks && t != step.tid ==> s.tasks[t].call == NoCall;
  }

  lemma MutexKept(s: State, step: Step)
    requires Inv(s) && Enabled(s, step)
    ensures MutexInv(Do(s, step))
  {
    hide StreamInv, TableOk, CStr, Wants, PublishChunks, StrNCpy, SlotOk, OwnerInv, PubOk, SocketsOpen;
    if step.SubscribeBegin? || step.PublishBegin? || step.SubscribeEnd? || step.PublishEnd? {
      MutexTaken(s, step);
    } else {
      MutexSame(s, Do(s, step));
    }
  }

  lemma PiecesPut(s: State, sock: int, item: Item, other: int)
    ensures Pieces(Stream(Put(s, sock, item), other))
            == Pieces(Stream(s, other)) + (if other == sock && item.Piece? then [item.bytes] else [])
  {
    var items := Stream(s, sock) + [item];
    assert items[..|items| - 1] == Stream(s, sock);
  }

  lemma SelectedMore(p: Publication, i: nat, sock: int)
    requires PubOk(p) && DistinctSockets(p.table) && i < |p.table|
    ensures Selected(p.table[..i + 1], p.topic, sock)
            <==> Selected(p.table[..i], p.topic, sock) || (p.table[i].sock == sock && Wants(p.table[i], p.topic))
    ensures p.table[i].sock == sock && Wants(p.table[i], p.topic) ==> !Selected(p.table[..i], p.topic, sock)
  {
    var t, t' := p.table[..i], p.table[..i + 1];
    SelectedByWants(t, p.topic, sock);
    SelectedByWants(t', p.topic, sock);
    if Selected(t', p.topic, sock) {
      var j :| 0 <= j < |t'| && t'[j].sock == sock && Wants(t'[j], p.topic);
      if j < i {
        assert t[j] == t'[j];
      }
    }
    if Selected(t, p.topic, sock) {
      var j :| 0 <= j < |t| && t[j].sock == sock && Wants(t[j], p.topic);
      assert t'[j] == t[j];
    }
    if p.table[i].sock == sock && Wants(p.table[i], p.topic) {
      assert t'[i] == p.table[i];
    }
  }

  /** What is expected of a stream when broker_publish moves on by one send, or to the next client. */
  lemma ProgressSend(p: Publication, i: nat, k: nat, sock: int)
    requires PubOk(p) && DistinctSockets(p.table) && i < |p.table| && k < |Chunks(p)| && Wants(p.table[i], p.topic)
    ensures Progress(p, i, k + 1, sock)
            == Progress(p, i, k, sock) + (if sock == p.table[i].sock then [Chunks(p)[k]] else [])
  {
    SelectedMore(p, i, sock);
    assert Chunks(p)[..k + 1] == Chunks(p)[..k] + [Chunks(p)[k]];
  }

  lemma ProgressNext(p: Publication, i: nat, k: nat, sock: int)
    requires PubOk(p) && DistinctSockets(p.table) && i < |p.table| && k <= |Chunks(p)|
    requires Wants(p.table[i], p.topic) ==> k == |Chunks(p)|
    ensures Progress(p, i + 1, 0, sock) == Progress(p, i, k, sock)
  {
    SelectedMore(p, i, sock);
    assert Chunks(p)[..|Chunks(p)|] == Chunks(p);
  }

  lemma ProgressEnds(p: Publication, sock: int)
    requires PubOk(p)
    ensures Progress(p, 0, 0, sock) == []
    ensures Progress(p, |p.table|, 0, sock) == if Selected(p.table, p.topic, sock) then Chunks(p) else []
  {
    assert p.table[..|p.table|] == p.table;
  }

  /** Steps that neither publish nor change the table under a publication. */
  lemma StreamsSame(s: State, s': State)
    requires Inv(s) && MutexInv(s')
    requires s'.history == s.history && s'.streams == s.streams
    requires Active(s') <==> Active(s)
    requires Active(s) ==> s'.slots == s.slots && s'.pktId == s.pktId && s'.mutex == s.mutex
    requires Active(s) ==> s'.tasks[s.mutex.value].call == s.tasks[s.mutex.value].call
    ensures StreamInv(s')
  {
    assert PublishInv(s');
    forall sock ensures Pieces(Stream(s', sock)) == Expected(s', sock) {
      assert Pieces(Stream(s, sock)) == Expected(s, sock);
    }
  }

  lemma StreamBegin(s: State, step: Step)
    requires Inv(s) && step.PublishBegin? && Enabled(s, step)
    ensures StreamInv(Do(s, step))
  {
    hide TableOk, OwnerInv, Selected, Progress, Frames, Pieces, DistinctSockets;
    var s' := Do(s, step);
    var p := Current(s');
    assert s'.history[..|s'.history| - 1] == s.history;
    assert HistoryOk(s'.history);
    assert s'.tasks[step.tid].call == Publishing(0, 0);
    forall sock ensures Pieces(Stream(s', sock)) == Expected(s', sock) {
      ProgressEnds(p, sock);
      assert Pieces(Stream(s, sock)) == Expected(s, sock);
    }
  }

  lemma StreamSend(s: State, step: Step)
    requires Inv(s) && step.PublishSend? && Enabled(s, step)
    ensures StreamInv(Do(s, step))
  {
    hide TableOk, OwnerInv, Selected, Progress, Frames, Pieces, DistinctSockets, Wants, PublishChunks;
    var s' := Do(s, step);
    var p, c := Current(s), s.tasks[step.tid].call;
    assert PublishInv(s');
    forall sock ensures Pieces(Stream(s', sock)) == Expected(s', sock) {
      PiecesPut(s, s.slots[c.i].sock, Piece(Chunks(p)[c.k]), sock);
      ProgressSend(p, c.i, c.k, sock);
      assert Pieces(Stream(s, sock)) == Expected(s, sock);
    }
  }

  lemma StreamNext(s: State, step: Step)
    requires Inv(s) && step.PublishNext? && Enabled(s, step)
    ensures StreamInv(Do(s, step))
  {
    hide TableOk, OwnerInv, Selected, Progress, Frames, Pieces, DistinctSockets, Wants, PublishChunks;
    var s' := Do(s, step);
    var p, c := Current(s), s.tasks[step.tid].call;
    assert PublishInv(s');
    forall sock ensures Pieces(Stream(s', sock)) == Expected(s', sock) {
      ProgressNext(p, c.i, c.k, sock);
      assert Pieces(Stream(s, sock)) == Expected(s, sock);
    }
  }

  lemma StreamEnd(s: State, step: Step)
    requires Inv(s) && step.PublishEnd? && Enabled(s, step)
    ensures StreamInv(Do(s, step))
  {
    hide TableOk, OwnerInv, Selected, Progress, Frames, Pieces, DistinctSockets, Wants;
    var s' := Do(s, step);
    var p := Current(s);
    assert PublishInv(s') by { MutexKept(s, step); }
    forall sock ensures Pieces(Stream(s', sock)) == Expected(s', sock) {
      ProgressEnds(p, sock);
      FramesLast(s.history, sock);
      assert Pieces(Stream(s, sock)) == Expected(s, sock);
    }
  }

  lemma StreamReply(s: State, step: Step)
    requires Inv(s) && step.SendReply? && Enabled(s, step)
    ensures StreamInv(Do(s, step))
  {
    hide TableOk, OwnerInv, Selected, Progress, Frames, Pieces, DistinctSockets, Wants;
    var s' := Do(s, step);
    assert PublishInv(s');
    forall sock ensures Pieces(Stream(s', sock)) == Expected(s', sock) {
      PiecesPut(s, s.tasks[step.tid].sock, Control(step.bytes), sock);
      assert Pieces(Stream(s, sock)) == Expected(s, sock);
    }
  }

  lemma StreamPublishing(s: State, step: Step)
    requires Inv(s) && Enabled(s, step) && Publishes(step)
    ensures StreamInv(Do(s, step))
  {
    hide Inv, StreamInv, Do, Enabled;
    match step
    case PublishBegin(_, _, _, _) => StreamBegin(s, step);
    case PublishSend(_) => StreamSend(s, step);
    case PublishNext(_) => StreamNext(s, step);
    case PublishEnd(_) => StreamEnd(s, step);
  }

  lemma StreamKept(s: State, step: Step)
    requires Inv(s) && Enabled(s, step)
    ensures StreamInv(Do(s, step))
  {
    hide TableOk, CStr, Wants, PublishChunks, StrNCpy, SlotOk, OwnerInv, StreamInv, Pieces, Expected;
    if Publishes(step) {
      StreamPublishing(s, step);
    } else if step.SendReply? {
      StreamReply(s, step);
    } else {
      MutexKept(s, step);
      StreamsSame(s, Do(s, step));
    }
  }

  lemma FramesLast(h: seq<Publication>, sock: int)
    requires HistoryOk(h) && h != []
    ensures var p := h[|h| - 1];
            Frames(h, sock) == Frames(h[..|h| - 1], sock) + (if Selected(p.table, p.topic, sock) then Chunks(p) else [])
  {
  }

  lemma StepKeeps(s: State, step: Step)
    requires Inv(s) && Enabled(s, step)
    ensures Inv(Do(s, step))
  {
    hide TableInv, OwnerInv, MutexInv, StreamInv;
    TableKept(s, step);
    OwnerKept(s, step);
    MutexKept(s, step);
    StreamKept(s, step);
  }

  // Runs.

  function Initial(): State {
    State([EmptySlot(), EmptySlot()], 0, 1, None, Waiting, map[], {}, {}, map[], [])
  }

  /** The state a sequence of steps leads to from the start; None if some step is not possible. */
  function Exec(steps: seq<Step>): Option<State> {
    if steps == [] then Some(Initial())
    else
      match Exec(steps[..|steps| - 1])
      case None => None
      case Some(s) =>
        var step := steps[|steps| - 1];
        if WellTyped(s) && Enabled(s, step) then Some(Do(s, step)) else None
  }

  lemma InitialInv()
    ensures Inv(Initial())
  {
    var t := Initial().slots;
    assert t[1..] == [EmptySlot()];
    assert forall sock :: Pieces(Stream(Initial(), sock)) == Expected(Initial(), sock);
  }

  lemma {:induction false} RunKeeps(steps: seq<Step>)
    requires Exec(steps).Some?
    ensures Inv(Exec(steps).value)
    decreases |steps|
  {
    hide Inv, Enabled, Do, Initial;
    if steps == [] {
      InitialInv();
    } else {
      RunKeeps(steps[..|steps| - 1]);
      StepKeeps(Exec(steps[..|steps| - 1]).value, steps[|steps| - 1]);
    }
  }

  /** In every run: the client counter is the number of active entries, at most two; every active entry
      has exactly one owner, on its own open socket; no entry holds more than eight filters, and
      every stored text is terminated. */
  lemma {:induction false} TableInEveryRun(steps: seq<Step>)
    requires Exec(steps).Some?
    ensures var s := Exec(steps).value;
            && TableOk(s.slots) && s.count == CountActive(s.slots) <= 2
            && (forall i :: 0 <= i < |s.slots| ==> s.slots[i].subCount <= 8)
            && SocketsOpen(s) && OwnerInv(s)
  {
    hide Exec;
    RunKeeps(steps);
  }

  /** The frames, as bytes, of all publications that selected a client. */
  function FrameBytes(h: seq<Publication>, sock: int): seq<byte>
    requires HistoryOk(h)
    decreases |h|
  {
    if h == [] then []
    else
      var p := h[|h| - 1];
      FrameBytes(h[..|h| - 1], sock)
      + (if Selected(p.table, p.topic, sock) then PublishFrame(p.topic, p.payload, p.qos, p.pktId) else [])
  }

  lemma {:induction false} ConcatJoin(a: seq<seq<byte>>, b: seq<seq<byte>>)
    ensures Concat(a + b) == Concat(a) + Concat(b)
  {
    if a == [] {
      assert a + b == b;
    } else {
      ConcatJoin(a[1..], b);
      assert (a + b)[0] == a[0] && (a + b)[1..] == a[1..] + b;
      assert a[0] + (Concat(a[1..]) + Concat(b)) == a[0] + Concat(a[1..]) + Concat(b);
    }
  }

  lemma {:induction false} FramesAsBytes(h: seq<Publication>, sock: int)
    requires HistoryOk(h)
    ensures Concat(Frames(h, sock)) == FrameBytes(h, sock)
    decreases |h|
  {
    hide PublishChunks, Selected;
    if h != [] {
      var p := h[|h| - 1];
      FramesAsBytes(h[..|h| - 1], sock);
      ConcatJoin(Frames(h[..|h| - 1], sock), if Selected(p.table, p.topic, sock) then Chunks(p) else []);
    }
  }

  /** In every run, for every client: the PUBLISH bytes it has been sent are the whole frames, in the
      order in which the publishers got the mutex, of exactly those publications whose table at that
      moment held a matching filter for it; and then, while somebody is publishing, a beginning of
      that frame. */
  lemma {:induction false} FanOutInEveryRun(steps: seq<Step>, sock: int)
    requires Exec(steps).Some?
    ensures var s := Exec(steps).value;
            && HistoryOk(s.history)
            && (!Active(s) ==> Concat(Pieces(Stream(s, sock))) == FrameBytes(s.history, sock))
            && (Active(s) ==>
                  && s.history != []
                  && FrameBytes(s.history[..|s.history| - 1], sock) <= Concat(Pieces(Stream(s, sock))) <= FrameBytes(s.history, sock))
  {
    hide Exec, Pieces, PublishChunks, Frames, TableInv, OwnerInv;
    RunKeeps(steps);
    var s := Exec(steps).value;
    assert Pieces(Stream(s, sock)) == Expected(s, sock);
    if Active(s) {
      var c := s.tasks[s.mutex.value].call;
      PartOfFrame(s.history, c.i, c.k, sock);
    } else {
      FramesAsBytes(s.history, sock);
    }
  }

  /** Frames, and then part of the last one, as bytes. */
  lemma PartOfFrame(h: seq<Publication>, i: nat, k: nat, sock: int)
    requires HistoryOk(h) && h != []
    requires i <= |h[|h| - 1].table| && k <= |Chunks(h[|h| - 1])|
    ensures var sent := Concat(Frames(h[..|h| - 1], sock) + Progress(h[|h| - 1], i, k, sock));
            FrameBytes(h[..|h| - 1], sock) <= sent <= FrameBytes(h, sock)
  {
    hide PublishChunks, Frames, Selected, Progress, Concat, DistinctSockets;
    var before, p := h[..|h| - 1], h[|h| - 1];
    FramesAsBytes(before, sock);
    ProgressWithin(p, i, k, sock);
    var so := Progress(p, i, k, sock);
    var all := if Selected(p.table, p.topic, sock) then Chunks(p) else [];
    ConcatJoin(Frames(before, sock), so);
    ConcatJoin(so, all[|so|..]);
    assert all == so + all[|so|..];
    assert FrameBytes(h, sock) == FrameBytes(before, sock) + Concat(all) by {
      ConcatEmpty();
    }
  }

  lemma ConcatEmpty()
    ensures Concat([]) == []
  {
  }

  lemma ProgressWithin(p: Publication, i: nat, k: nat, sock: int)
    requires PubOk(p) && i <= |p.table| && k <= |Chunks(p)|
    ensures Progress(p, i, k, sock) <= if Selected(p.table, p.topic, sock) then Chunks(p) else []
  {
    hide PublishChunks, Wants;
    var t := p.table[..i];
    SelectedByWants(t, p.topic, sock);
    SelectedByWants(p.table, p.topic, sock);
    if Selected(t, p.topic, sock) {
      var j :| 0 <= j < |t| && t[j].sock == sock && Wants(t[j], p.topic);
      assert p.table[j] == t[j];
    }
  }

  /** Nothing is ever sent on a socket that has not been accepted, or has been closed. */
  lemma {:induction false} SendsOnOpenSockets(s: State, step: Step, sock: int)
    requires Inv(s) && Enabled(s, step)
    requires Stream(Do(s, step), sock) != Stream(s, sock)
    ensures sock in s.known - s.closed
  {
    hide TableOk, SlotOk, PublishChunks, Wants, StreamInv;
    SlotsOk(s.slots);
    match step
    case SendReply(tid, _) => assert HandlerOwns(s, tid, s.tasks[tid].idx);
    case PublishSend(tid) => WantsActive(s.slots[s.tasks[tid].call.i], Current(s).topic);
    case _ =>
  }

  /** A publisher that has sent k > 0 chunks of a frame to a client sent chunk k - 1 of it last. */
  lemma MidFrame(s: State, pub: nat)
    requires Inv(s) && InPublish(s, pub) && s.tasks[pub].call.k > 0
    ensures var c := s.tasks[pub].call;
            && c.i < |s.slots| && c.k <= |Chunks(Current(s))|
            && var ps := Pieces(Stream(s, s.slots[c.i].sock));
               |ps| > 0 && ps[|ps| - 1] == Chunks(Current(s))[c.k - 1]
  {
    hide PublishChunks, Frames, Pieces, Wants, TableOk, OwnerInv;
    var c := s.tasks[pub].call;
    var sock := s.slots[c.i].sock;
    assert Active(s) && s.mutex == Some(pub);
    assert Pieces(Stream(s, sock)) == Expected(s, sock);
    SelectedMore(Current(s), c.i, sock);
    assert Progress(Current(s), c.i, c.k, sock) == Chunks(Current(s))[..c.k];
  }

  /** The mutex does not keep a frame whole against its own client's replies: whenever a publisher is in
      the middle of a frame, a reply of that client's idle handler may come between two chunks. */
  lemma {:induction false} ReplyMaySplitFrame(s: State, pub: nat, tid: nat, bytes: seq<byte>)
    requires Inv(s) && InPublish(s, pub) && IdleHandler(s, tid)
    requires var c := s.tasks[pub].call;
             0 < c.k < |Chunks(Current(s))| && c.i < |s.slots| && c.i == s.tasks[tid].idx
    ensures Enabled(s, SendReply(tid, bytes))
    ensures var c, s1, sock := s.tasks[pub].call, Do(s, SendReply(tid, bytes)), s.slots[s.tasks[tid].idx].sock;
            && WellTyped(s1) && Enabled(s1, PublishSend(pub))
            && Stream(Do(s1, PublishSend(pub)), sock)
               == Stream(s, sock) + [Control(bytes), Piece(Chunks(Current(s))[c.k])]
  {
    hide PublishChunks, Frames, Pieces, Wants, TableOk, StreamInv;
    assert PublishInv(s) && Active(s) && s.mutex == Some(pub) by { StreamInvParts(s); }
    var c, sock := s.tasks[pub].call, s.tasks[tid].sock;
    assert HandlerOwns(s, tid, c.i);
    var s1 := Do(s, SendReply(tid, bytes));
    assert Stream(s1, sock) == Stream(s, sock) + [Control(bytes)];
    assert Stream(s, sock) + [Control(bytes)] + [Piece(Chunks(Current(s))[c.k])]
        == Stream(s, sock) + [Control(bytes), Piece(Chunks(Current(s))[c.k])];
  }

  lemma StreamInvParts(s: State)
    requires StreamInv(s)
    ensures PublishInv(s)
  {
  }

  // The table as the source fills it: the SUBSCRIBE arm is never entered.

  predicate NoFilters(t: seq<Slot>) {
    forall i :: 0 <= i < |t| ==> t[i].subCount == 0
  }

  lemma {:induction false} NoFramesWithoutFilters(h: seq<Publication>, sock: int)
    requires HistoryOk(h) && forall i :: 0 <= i < |h| ==> NoFilters(h[i].table)
    ensures FrameBytes(h, sock) == []
    decreases |h|
  {
    if h != [] {
      NoFramesWithoutFilters(h[..|h| - 1], sock);
    }
  }

  lemma {:induction false} NeverAnyFilter(steps: seq<Step>)
    requires Exec(steps).Some? && forall i :: 0 <= i < |steps| ==> !steps[i].SubscribeOne?
    ensures var s := Exec(steps).value;
            NoFilters(s.slots) && forall i :: 0 <= i < |s.history| ==> NoFilters(s.history[i].table)
    decreases |steps|
  {
    hide Do, Enabled;
    if steps != [] {
      NeverAnyFilter(steps[..|steps| - 1]);
      NoFilterStep(Exec(steps[..|steps| - 1]).value, steps[|steps| - 1]);
    }
  }

  lemma NoFilterStep(s: State, step: Step)
    requires WellTyped(s) && Enabled(s, step) && !step.SubscribeOne? && NoFilters(s.slots)
    ensures var s' := Do(s, step);
            && NoFilters(s'.slots)
            && (s'.history == s.history || (|s'.history| > 0 && s'.history == s.history + [Current(s')] && Current(s').table == s.slots))
  {
    hide TableOk, PublishChunks, Wants, StrNCpy;
  }

  /** In every run in which no filter is stored, no client ever receives a byte of a PUBLISH, whoever
      publishes what. */
  lemma {:induction false} NothingDeliveredAsWritten(steps: seq<Step>, sock: int)
    requires Exec(steps).Some? && forall i :: 0 <= i < |steps| ==> !steps[i].SubscribeOne?
    ensures Concat(Pieces(Stream(Exec(steps).value, sock))) == []
  {
    hide Exec, Pieces;
    NeverAnyFilter(steps);
    FanOutInEveryRun(steps, sock);
    NoFramesWithoutFilters(Exec(steps).value.history, sock);
  }
}
