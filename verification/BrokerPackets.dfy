/** What a client reads from its socket: the stream as a sequence of packets, in every run that splits none. */
module BrokerPackets {
  import opened Bytes
  import opened Options
  import opened RemainingLength
  import opened PacketHandler
  import opened BrokerTable
  import opened BrokerProtocol
  import opened BrokerReplies
  import opened BrokerSessions
  import opened HandlerReplies
  import opened PacketReader

  /** The bytes of each item. */
  function ItemBytes(items: seq<Item>): (bs: seq<seq<byte>>)
    ensures |bs| == |items|
  {
    seq(|items|, i requires 0 <= i < |items| => items[i].bytes)
  }

  /** A stream as it arrives. */
  function OnWire(items: seq<Item>): seq<byte> {
    Concat(ItemBytes(items))
  }

  lemma OnWireMore(items: seq<Item>, item: Item)
    ensures OnWire(items + [item]) == OnWire(items) + item.bytes
  {
    assert ItemBytes(items + [item]) == ItemBytes(items) + [item.bytes];
    ConcatJoin(ItemBytes(items), [item.bytes]);
    ConcatOne(item.bytes);
  }

  lemma ConcatOne(b: seq<byte>)
    ensures Concat([b]) == b
  {
    assert [b][1..] == [];
  }

  // Whole frames and whole replies, in every run.

  /** The frames a client has been sent to the end. */
  function DoneFrames(s: State, sock: int): seq<seq<byte>>
    requires PublishInv(s)
  {
    if Active(s) then
      var c, p := s.tasks[s.mutex.value].call, Current(s);
      FrameList(s.history[..|s.history| - 1], sock)
      + (if Concat(Progress(p, c.i, c.k, sock)) == PublishFrame(p.topic, p.payload, p.qos, p.pktId)
         then [PublishFrame(p.topic, p.payload, p.qos, p.pktId)] else [])
    else FrameList(s.history, sock)
  }

  function FrameList(h: seq<Publication>, sock: int): seq<seq<byte>>
    requires HistoryOk(h)
    decreases |h|
  {
    if h == [] then []
    else
      var p := h[|h| - 1];
      FrameList(h[..|h| - 1], sock)
      + (if Selected(p.table, p.topic, sock) then [PublishFrame(p.topic, p.payload, p.qos, p.pktId)] else [])
  }

  /** What the stream ends in: the frame in progress so far, or the first half of a SUBACK. */
  function Unfinished(s: State, sock: int): seq<byte> {
    if MidFrameFor(s, sock) then
      Concat(Chunks(Current(s))[..s.tasks[s.mutex.value].call.k])
    else
      match Group(Controls(Stream(s, sock))).half
      case Some(head) => head
      case None => []
  }

  /** `units` are the frames and replies that the stream consists of, whole and in order. */
  ghost predicate Consists(s: State, sock: int, units: seq<Item>)
    requires PublishInv(s)
  {
    && OnWire(Stream(s, sock)) == OnWire(units) + Unfinished(s, sock)
    && Pieces(units) == DoneFrames(s, sock)
    && Controls(units) == Group(Controls(Stream(s, sock))).whole
  }

  lemma PiecesMore(items: seq<Item>, item: Item)
    ensures Pieces(items + [item]) == Pieces(items) + (if item.Piece? then [item.bytes] else [])
    ensures Controls(items + [item]) == Controls(items) + (if item.Control? then [item.bytes] else [])
  {
    assert (items + [item])[..|items|] == items;
  }

  /** One more whole unit. */
  lemma UnitMore(units: seq<Item>, item: Item)
    ensures OnWire(units + [item]) == OnWire(units) + item.bytes
    ensures Pieces(units + [item]) == Pieces(units) + (if item.Piece? then [item.bytes] else [])
    ensures Controls(units + [item]) == Controls(units) + (if item.Control? then [item.bytes] else [])
  {
    OnWireMore(units, item);
    PiecesMore(units, item);
  }

  /** A reply outside every frame. */
  lemma ReplyUnits(s: State, t: State, sock: int, b: seq<byte>, units: seq<Item>) returns (units': seq<Item>)
    requires b != [] && PublishInv(s) && PublishInv(t) && Consists(s, sock, units)
    requires Stream(t, sock) == Stream(s, sock) + [Control(b)]
    requires !MidFrameFor(s, sock) && !MidFrameFor(t, sock) && DoneFrames(t, sock) == DoneFrames(s, sock)
    ensures Consists(t, sock, units')
  {
    hide OnWire, Pieces, Controls, Group, MidFrameFor, DoneFrames, PublishInv;
    var items := Stream(s, sock);
    var r := Group(Controls(items));
    OnWireMore(items, Control(b));
    PiecesMore(items, Control(b));
    GroupMore(Controls(items), b);
    units' := units;
    match r.half {
      case Some(head) =>
        UnitMore(units, Control(head + b));
        units' := units + [Control(head + b)];
        assert OnWire(units) + head + b == OnWire(units) + (head + b) + [];
      case None =>
        if !IsHalf(b) {
          UnitMore(units, Control(b));
          units' := units + [Control(b)];
        }
        assert OnWire(units) + [] + b == OnWire(units) + b;
        assert OnWire(units) + b == OnWire(units) + b + [];
    }
  }

  /** A chunk outside every SUBACK. */
  lemma ChunkUnits(s: State, t: State, sock: int, c: seq<byte>, units: seq<Item>) returns (units': seq<Item>)
    requires PublishInv(s) && PublishInv(t) && Consists(s, sock, units)
    requires Stream(t, sock) == Stream(s, sock) + [Piece(c)] && !HalfSent(Stream(s, sock))
    requires MidFrameFor(t, sock) ==>
               DoneFrames(t, sock) == DoneFrames(s, sock) && Unfinished(t, sock) == Unfinished(s, sock) + c
    requires !MidFrameFor(t, sock) ==> DoneFrames(t, sock) == DoneFrames(s, sock) + [Unfinished(s, sock) + c]
    ensures Consists(t, sock, units')
  {
    hide OnWire, Pieces, Controls, Group, MidFrameFor, DoneFrames, PublishInv;
    var items := Stream(s, sock);
    OnWireMore(items, Piece(c));
    PiecesMore(items, Piece(c));
    assert Controls(Stream(t, sock)) == Controls(items);
    var u := Unfinished(s, sock);
    assert OnWire(units) + u + c == OnWire(units) + (u + c);
    units' := units;
    if !MidFrameFor(t, sock) {
      UnitMore(units, Piece(u + c));
      units' := units + [Piece(u + c)];
      assert OnWire(units) + (u + c) == OnWire(units) + (u + c) + [];
    }

  }

  /** Steps after which the bytes sent and the frame in progress are as before. */
  lemma SameUnits(s: State, t: State, sock: int, units: seq<Item>)
    requires PublishInv(s) && PublishInv(t) && Consists(s, sock, units)
    requires OnWire(Stream(t, sock)) == OnWire(Stream(s, sock))
    requires Group(Controls(Stream(t, sock))) == Group(Controls(Stream(s, sock)))
    requires DoneFrames(t, sock) == DoneFrames(s, sock) && Unfinished(t, sock) == Unfinished(s, sock)
    ensures Consists(t, sock, units)
  {
    hide OnWire, Pieces, Controls, Group, DoneFrames, Unfinished, PublishInv;
  }

  lemma UnitsBegin(s: State, step: Step, sock: int, units: seq<Item>)
    requires Inv(s) && Enabled(s, step) && step.PublishBegin? && PublishInv(s) && Consists(s, sock, units)
    ensures PublishInv(Do(s, step)) && Consists(Do(s, step), sock, units)
  {
    hide Consists, Pieces, OnWire, Controls, Group, Frames, FrameList, Progress, Selected, PublishChunks,
      PublishFrame, Wants, TableOk, SlotOk, OwnerInv;
    StepKeeps(s, step);
    var t := Do(s, step);
    assert t.history[..|t.history| - 1] == s.history && !MidFrameFor(t, sock) && !MidFrameFor(s, sock);
    NoProgress(Current(t), sock);
    SameUnits(s, t, sock, units);
  }

  lemma NoProgress(p: Publication, sock: int)
    requires PubOk(p)
    ensures Concat(Progress(p, 0, 0, sock)) != PublishFrame(p.topic, p.payload, p.qos, p.pktId)
  {
    hide PublishChunks, TableOk;
    ProgressEnds(p, sock);
    FrameSplit(p, |Chunks(p)|);
  }

  lemma UnitsNext(s: State, step: Step, sock: int, units: seq<Item>)
    requires Inv(s) && Enabled(s, step) && step.PublishNext? && PublishInv(s) && Consists(s, sock, units)
    ensures PublishInv(Do(s, step)) && Consists(Do(s, step), sock, units)
  {
    hide Consists, Pieces, OnWire, Controls, Group, Frames, FrameList, Progress, Selected, PublishChunks,
      PublishFrame, Wants, TableOk, SlotOk, OwnerInv;
    StepKeeps(s, step);
    var c := s.tasks[step.tid].call;
    assert Active(s) && s.mutex == Some(step.tid);
    ProgressNext(Current(s), c.i, c.k, sock);
    SameUnits(s, Do(s, step), sock, units);
  }

  lemma UnitsEnd(s: State, step: Step, sock: int, units: seq<Item>)
    requires Inv(s) && Enabled(s, step) && step.PublishEnd? && PublishInv(s) && Consists(s, sock, units)
    ensures PublishInv(Do(s, step)) && Consists(Do(s, step), sock, units)
  {
    hide Consists, Pieces, OnWire, Controls, Group, Frames, FrameList, Progress, Selected, PublishChunks,
      PublishFrame, Wants, TableOk, SlotOk, OwnerInv;
    StepKeeps(s, step);
    assert Active(s) && s.mutex == Some(step.tid);
    AllProgress(Current(s), sock);
    FrameListLast(s.history, sock);
    SameUnits(s, Do(s, step), sock, units);
  }

  lemma FrameListLast(h: seq<Publication>, sock: int)
    requires HistoryOk(h) && h != []
    ensures var p := h[|h| - 1];
            FrameList(h, sock) == FrameList(h[..|h| - 1], sock)
              + (if Selected(p.table, p.topic, sock) then [PublishFrame(p.topic, p.payload, p.qos, p.pktId)] else [])
  {
  }

  /** A publication that is over has sent all of its frame or nothing. */
  lemma AllProgress(p: Publication, sock: int)
    requires PubOk(p)
    ensures Concat(Progress(p, |p.table|, 0, sock)) == PublishFrame(p.topic, p.payload, p.qos, p.pktId)
            <==> Selected(p.table, p.topic, sock)
  {
    hide PublishChunks, TableOk;
    ProgressEnds(p, sock);
    FrameSplit(p, |Chunks(p)|);
  }

  /** One send of a frame to `sock`: what is sent of it, and what is left. */
  lemma ChunkSent(p: Publication, i: nat, k: nat, sock: int)
    requires PubOk(p) && DistinctSockets(p.table) && i < |p.table| && k < |Chunks(p)|
    requires p.table[i].sock == sock && Wants(p.table[i], p.topic)
    ensures Progress(p, i, k, sock) == Chunks(p)[..k] && Progress(p, i, k + 1, sock) == Chunks(p)[..k + 1]
    ensures Concat(Chunks(p)[..k + 1]) == Concat(Chunks(p)[..k]) + Chunks(p)[k]
    ensures Concat(Chunks(p)[k..]) == Chunks(p)[k] + Concat(Chunks(p)[k + 1..])
    ensures k == 0 ==> Chunks(p)[k] != []
  {
    hide Wants, TableOk;
    var cs := Chunks(p);
    assert cs[0] != [];
    hide PublishChunks;
    SelectedMore(p, i, sock);
    assert cs[..k + 1] == cs[..k] + [cs[k]] && cs[k..][1..] == cs[k + 1..];
    ConcatJoin(cs[..k], [cs[k]]);
    ConcatOne(cs[k]);
  }

  /** A frame is done when nothing but empty chunks is left of it. */
  lemma DoneByRest(p: Publication, k: nat)
    requires PubOk(p) && k <= |Chunks(p)|
    ensures Concat(Chunks(p)[..k]) == PublishFrame(p.topic, p.payload, p.qos, p.pktId) <==> Concat(Chunks(p)[k..]) == []
    ensures k == 0 ==> Concat(Chunks(p)[..k]) == [] && Concat(Chunks(p)[k..]) != []
    ensures k == |Chunks(p)| ==> Concat(Chunks(p)[k..]) == []
  {
    hide PublishChunks, TableOk, Concat;
    FrameSplit(p, k);
    FrameSplit(p, |Chunks(p)|);
    var a, b := Concat(Chunks(p)[..k]), Concat(Chunks(p)[k..]);
    if b == [] { assert a + b == a; } else { assert |a + b| > |a|; }
  }

  lemma UnitsSend(s: State, step: Step, sock: int, units: seq<Item>) returns (units': seq<Item>)
    requires Inv(s) && Enabled(s, step) && step.PublishSend? && PublishInv(s) && Consists(s, sock, units)
    requires !Splits(s, step, sock)
    ensures PublishInv(Do(s, step)) && Consists(Do(s, step), sock, units')
  {
    hide Consists, HalfSent, Do, TableInv, OwnerInv, StreamInv, PubOk, Wants;
    InvTyped(s);
    StepKeeps(s, step);
    assert PublishInv(Do(s, step)) by { StreamInvParts(Do(s, step)); }
    if s.slots[s.tasks[step.tid].call.i].sock == sock {
      if Chunks(Current(s))[s.tasks[step.tid].call.k] == [] {
        units' := units;
        UnitsEmptyChunk(s, step, sock, units);
      } else {
        units' := UnitsChunk(s, step, sock, units);
      }
    } else {
      units' := units;
      UnitsElsewhere(s, step, sock, units);
    }
  }

  lemma UnitsElsewhere(s: State, step: Step, sock: int, units: seq<Item>)
    requires Inv(s) && Enabled(s, step) && step.PublishSend? && PublishInv(s) && Consists(s, sock, units)
    requires s.slots[s.tasks[step.tid].call.i].sock != sock
    requires Active(s) && s.mutex == Some(step.tid) && PublishInv(Do(s, step))
    ensures Consists(Do(s, step), sock, units)
  {
    hide Consists, Pieces, OnWire, Controls, Group, Frames, FrameList, Progress, Selected, PublishChunks,
      PublishFrame, Wants, TableOk, SlotOk,
      OwnerInv, HalfSent, Concat;
    var c := s.tasks[step.tid].call;
    ProgressSend(Current(s), c.i, c.k, sock);
    assert Progress(Current(s), c.i, c.k, sock) + [] == Progress(Current(s), c.i, c.k, sock);
    SameUnits(s, Do(s, step), sock, units);
  }

  /** The next chunk goes to `sock`. */
  ghost predicate AtChunk(s: State, step: Step, sock: int) {
    && Inv(s) && Enabled(s, step) && step.PublishSend? && PublishInv(s)
    && s.slots[s.tasks[step.tid].call.i].sock == sock
    && Active(s) && s.mutex == Some(step.tid) && PublishInv(Do(s, step))
  }

  lemma UnitsEmptyChunk(s: State, step: Step, sock: int, units: seq<Item>)
    requires AtChunk(s, step, sock) && Consists(s, sock, units)
    requires Chunks(Current(s))[s.tasks[step.tid].call.k] == []
    ensures Consists(Do(s, step), sock, units)
  {
    hide Consists, Pieces, OnWire, Controls, Group, Frames, FrameList, Progress, Selected, PublishChunks, PublishFrame,
      Wants, TableOk, SlotOk, OwnerInv, HalfSent, Concat, Unfinished;
    var t, c, p := Do(s, step), s.tasks[step.tid].call, Current(s);
    ChunkSent(p, c.i, c.k, sock);
    DoneByRest(p, c.k + 1);
    if MidFrameFor(t, sock) { MidSends(t, sock); }
    if MidFrameFor(s, sock) { MidSends(s, sock); }
    EmptyItem(Stream(s, sock), Piece([]));
    if !MidFrameFor(s, sock) { BetweenSends(s, t, sock); }
    assert Concat(Chunks(p)[..c.k]) + [] == Concat(Chunks(p)[..c.k]);
    assert [] + Concat(Chunks(p)[c.k + 1..]) == Concat(Chunks(p)[c.k + 1..]);
    SameUnits(s, t, sock, units);
  }

  lemma UnitsChunk(s: State, step: Step, sock: int, units: seq<Item>) returns (units': seq<Item>)
    requires AtChunk(s, step, sock) && Consists(s, sock, units)
    requires Chunks(Current(s))[s.tasks[step.tid].call.k] != [] && !HalfSent(Stream(s, sock))
    ensures Consists(Do(s, step), sock, units')
  {
    hide Consists, Pieces, OnWire, Controls, Group, Frames, FrameList, Progress, Selected, PublishChunks, PublishFrame,
      Wants, TableOk, SlotOk, OwnerInv, HalfSent, Concat, Unfinished;
    var t, c, p := Do(s, step), s.tasks[step.tid].call, Current(s);
    ChunkSent(p, c.i, c.k, sock);
    DoneByRest(p, c.k);
    DoneByRest(p, c.k + 1);
    if MidFrameFor(t, sock) { MidSends(t, sock); }
    if c.k == 0 { NothingSent(s, sock); } else { MidSends(s, sock); }
    units' := ChunkUnits(s, t, sock, Chunks(p)[c.k], units);
  }

  /** An item without bytes. */
  lemma EmptyItem(items: seq<Item>, item: Item)
    requires item.bytes == []
    ensures OnWire(items + [item]) == OnWire(items)
    ensures Group(Controls(items + [item])) == Group(Controls(items))
  {
    OnWireMore(items, item);
    PiecesMore(items, item);
    assert OnWire(items) + [] == OnWire(items);
    if item.Control? { GroupMore(Controls(items), []); } else { assert Controls(items) + [] == Controls(items); }
  }

  lemma BetweenSends(s: State, t: State, sock: int)
    requires !MidFrameFor(s, sock) && !MidFrameFor(t, sock)
    requires Group(Controls(Stream(t, sock))) == Group(Controls(Stream(s, sock)))
    ensures Unfinished(t, sock) == Unfinished(s, sock)
  {
  }

  lemma NothingSent(s: State, sock: int)
    requires !MidFrameFor(s, sock) && !HalfSent(Stream(s, sock))
    ensures Unfinished(s, sock) == []
  {
  }

  lemma MidSends(s: State, sock: int)
    requires MidFrameFor(s, sock)
    ensures Unfinished(s, sock) == Concat(Chunks(Current(s))[..s.tasks[s.mutex.value].call.k])
  {
  }

  /** A reply changes its own stream and nothing else. */
  lemma PutKeeps(s: State, sock: int, item: Item)
    requires PublishInv(s)
    ensures var t := Put(s, sock, item);
            && PublishInv(t) && Stream(t, sock) == Stream(s, sock) + [item]
            && DoneFrames(t, sock) == DoneFrames(s, sock) && MidFrameFor(t, sock) == MidFrameFor(s, sock)
            && (Group(Controls(Stream(t, sock))) == Group(Controls(Stream(s, sock))) ==>
                  Unfinished(t, sock) == Unfinished(s, sock))
  {
    hide Controls, Group, Frames, FrameList, Progress, Selected, PublishChunks, PublishFrame, Wants, TableOk, SlotOk, PubOk;
  }

  lemma ReplyPuts(s: State, step: Step)
    requires WellTyped(s) && Enabled(s, step) && step.SendReply?
    ensures IdleHandler(s, step.tid) && Do(s, step) == Put(s, s.tasks[step.tid].sock, Control(step.bytes))
  {
  }

  lemma UnitsReply(s: State, step: Step, sock: int, units: seq<Item>) returns (units': seq<Item>)
    requires Inv(s) && Enabled(s, step) && step.SendReply? && PublishInv(s) && Consists(s, sock, units)
    requires !Splits(s, step, sock) && s.tasks[step.tid].sock == sock
    ensures PublishInv(Do(s, step)) && Consists(Do(s, step), sock, units')
  {
    hide Inv, Enabled, Consists, OnWire, Controls, Group, DoneFrames, Unfinished, MidFrameFor, PublishInv, Do, Put;
    InvTyped(s);
    ReplyPuts(s, step);
    PutKeeps(s, sock, Control(step.bytes));
    if step.bytes == [] {
      units' := units;
      EmptyItem(Stream(s, sock), Control([]));
      SameUnits(s, Do(s, step), sock, units);
    } else {
      units' := ReplyUnits(s, Do(s, step), sock, step.bytes, units);
    }
  }

  lemma OtherSteps(s: State, step: Step, sock: int)
    requires Inv(s) && Enabled(s, step) && !Publishes(step)
    requires step.SendReply? ==> s.tasks[step.tid].sock != sock
    ensures var t := Do(s, step);
            && t.history == s.history && Stream(t, sock) == Stream(s, sock) && (Active(t) <==> Active(s))
            && (Active(s) ==> t.slots == s.slots && t.mutex == s.mutex
                              && t.tasks[s.mutex.value].call == s.tasks[s.mutex.value].call)
  {
    hide StreamInv, TableOk, CStr, Wants, PublishChunks, StrNCpy, SlotOk, OwnerInv, PubOk, SocketsOpen;
  }

  lemma UnitsOther(s: State, step: Step, sock: int, units: seq<Item>)
    requires Inv(s) && Enabled(s, step) && !Publishes(step) && PublishInv(s) && Consists(s, sock, units)
    requires step.SendReply? ==> s.tasks[step.tid].sock != sock
    ensures PublishInv(Do(s, step)) && Consists(Do(s, step), sock, units)
  {
    hide Consists, Pieces, OnWire, Controls, Group, Frames, FrameList, Progress, Selected, PublishChunks,
      PublishFrame, Wants, TableOk, SlotOk, OwnerInv, StrNCpy, CStr, PubOk, Enabled, Do;
    StepKeeps(s, step);
    OtherSteps(s, step, sock);
    SameUnits(s, Do(s, step), sock, units);
  }

  lemma UnitsStep(s: State, step: Step, sock: int, units: seq<Item>) returns (units': seq<Item>)
    requires Inv(s) && Enabled(s, step) && PublishInv(s) && Consists(s, sock, units)
    requires !Splits(s, step, sock)
    ensures PublishInv(Do(s, step)) && Consists(Do(s, step), sock, units')
  {
    hide Consists, Do, Enabled, Inv, Splits, PublishInv;
    units' := units;
    match step
    case PublishBegin(_, _, _, _) => UnitsBegin(s, step, sock, units);
    case PublishSend(_) => units' := UnitsSend(s, step, sock, units);
    case PublishNext(_) => UnitsNext(s, step, sock, units);
    case PublishEnd(_) => UnitsEnd(s, step, sock, units);
    case _ => units' := UnitsControl(s, step, sock, units);
  }

  lemma UnitsControl(s: State, step: Step, sock: int, units: seq<Item>) returns (units': seq<Item>)
    requires Inv(s) && Enabled(s, step) && !Publishes(step) && PublishInv(s) && Consists(s, sock, units)
    requires !Splits(s, step, sock)
    ensures PublishInv(Do(s, step)) && Consists(Do(s, step), sock, units')
  {
    hide Consists, Do, Inv, Splits, PublishInv;
    if step.SendReply? && s.tasks[step.tid].sock == sock {
      units' := UnitsReply(s, step, sock, units);
    } else {
      units' := units;
      UnitsOther(s, step, sock, units);
    }
  }

  /** In every run, for every client whose stream no step splits: what it has been sent is, in order, whole
      frames and whole replies, then what there is so far of the frame or SUBACK in progress. The frames are
      those of the publications that selected it, in the order in which the publishers got the mutex; the
      replies are those of its handler, in order, the two sends of a SUBACK put together. */
  lemma {:induction false} UnitsInEveryRun(steps: seq<Step>, sock: int) returns (units: seq<Item>)
    requires Exec(steps).Some? && Undisturbed(steps, sock)
    ensures PublishInv(Exec(steps).value) && Consists(Exec(steps).value, sock, units)
    decreases |steps|
  {
    hide Inv, Do, Enabled, Splits, Initial, Consists;
    if steps == [] {
      units := [];
      InitialUnits(sock);
    } else {
      var init := steps[..|steps| - 1];
      units := UnitsInEveryRun(init, sock);
      RunKeeps(init);
      units := UnitsStep(Exec(init).value, steps[|steps| - 1], sock, units);
    }
  }

  lemma InitialUnits(sock: int)
    ensures PublishInv(Initial()) && Consists(Initial(), sock, [])
  {
  }

  // As packets.

  predicate PublishesOnly(ps: seq<seq<byte>>) {
    forall i :: 0 <= i < |ps| ==> IsPacket(ps[i]) && IsPublish(ps[i])
  }

  lemma FrameIsPublish(p: Publication)
    requires PubOk(p)
    ensures var f := PublishFrame(p.topic, p.payload, p.qos, p.pktId); IsPacket(f) && IsPublish(f)
  {
    hide PublishFrame, EncodeLen, TableOk, IsPacket;
    FrameParts(p.topic, p.payload, p.qos, p.pktId);
    var body := [|p.topic| / 256 % 256, |p.topic| % 256] + p.topic
      + (if p.qos > 0 then [p.pktId / 256, p.pktId % 256] else []) + p.payload;
    assert |body| == PublishLen(p.topic, p.payload, p.qos);
    HeaderIsPacket(MQTT_PUBLISH + p.qos * 2, body);
  }

  lemma {:induction false} FramesArePackets(h: seq<Publication>, sock: int)
    requires HistoryOk(h)
    ensures PublishesOnly(FrameList(h, sock))
    decreases |h|
  {
    hide IsPacket, IsPublish, PublishFrame, Selected;
    if h != [] {
      FramesArePackets(h[..|h| - 1], sock);
      FrameIsPublish(h[|h| - 1]);
    }
  }

  lemma DonePackets(s: State, sock: int)
    requires PublishInv(s)
    ensures PublishesOnly(DoneFrames(s, sock))
  {
    hide IsPacket, IsPublish, PublishFrame, PublishChunks, FrameList, Progress;
    var h := s.history;
    if Active(s) {
      FramesArePackets(h[..|h| - 1], sock);
      FrameIsPublish(Current(s));
    } else {
      FramesArePackets(h, sock);
    }
  }

  lemma PartsOnly(a: seq<seq<byte>>, b: seq<seq<byte>>)
    ensures PublishesOnly(a + b) ==> PublishesOnly(a) && PublishesOnly(b)
    ensures ReplyPackets(a + b) ==> ReplyPackets(a) && ReplyPackets(b)
  {
    hide IsPacket, IsPublish;
    var c := a + b;
    assert forall i :: 0 <= i < |a| ==> a[i] == c[i];
    assert forall i :: 0 <= i < |b| ==> b[i] == c[|a| + i];
  }

  lemma SortMore(ps: seq<seq<byte>>, p: seq<byte>)
    ensures PublishPackets(ps + [p]) == PublishPackets(ps) + (if IsPublish(p) then [p] else [])
    ensures OtherPackets(ps + [p]) == OtherPackets(ps) + (if IsPublish(p) then [] else [p])
  {
    assert (ps + [p])[..|ps|] == ps;
  }

  lemma {:induction false} UnitPackets(units: seq<Item>)
    requires PublishesOnly(Pieces(units)) && ReplyPackets(Controls(units))
    ensures var ps := ItemBytes(units);
            && (forall i :: 0 <= i < |ps| ==> IsPacket(ps[i]))
            && PublishPackets(ps) == Pieces(units) && OtherPackets(ps) == Controls(units)
    decreases |units|
  {
    hide IsPacket, IsPublish;
    if units != [] {
      hide Pieces, Controls, PublishPackets, OtherPackets;
      var init, last := units[..|units| - 1], units[|units| - 1];
      assert units == init + [last];
      PiecesMore(init, last);
      PartsOnly(Pieces(init), if last.Piece? then [last.bytes] else []);
      PartsOnly(Controls(init), if last.Control? then [last.bytes] else []);
      UnitPackets(init);
      assert ItemBytes(units) == ItemBytes(init) + [last.bytes];
      SortMore(ItemBytes(init), last.bytes);
      if last.Piece? { assert IsPublish([last.bytes][0]); } else { assert !IsPublish([last.bytes][0]); }
    }
  }

  /** In every run in which the handlers follow the packet loop, for every client whose stream no step splits:
      up to the frame or SUBACK in progress the client reads whole packets, and the frames and replies as they
      were made: the PUBLISH packets are the frames of the publications that selected it, in the order in which
      the publishers got the mutex, and the others are the replies of its handler, in order. */
  lemma {:induction false} ReadsAsPackets(steps: seq<Step>, sock: int, t: byte)
    requires Exec(steps).Some? && Undisturbed(steps, sock) && HandlersFollow(steps, t)
    ensures PublishInv(Exec(steps).value)
    ensures var s := Exec(steps).value;
            var stream, u := OnWire(Stream(s, sock)), Unfinished(s, sock);
            && |u| <= |stream| && stream == stream[..|stream| - |u|] + u
            && var ps := ReadPackets(stream[..|stream| - |u|]);
               && (forall i :: 0 <= i < |ps| ==> IsPacket(ps[i]))
               && PublishPackets(ps) == DoneFrames(s, sock)
               && OtherPackets(ps) == Group(Controls(Stream(s, sock))).whole
  {
    hide Exec, Undisturbed, HandlersFollow, PublishInv, Unfinished, DoneFrames, IsPacket, Group, Controls, Pieces,
      Concat, Followed;
    var units := UnitsInEveryRun(steps, sock);
    var s := Exec(steps).value;
    FollowersReply(steps, sock, t);
    FollowedPackets(Controls(Stream(s, sock)), t);
    DonePackets(s, sock);
    UnitPackets(units);
    ReadsPackets(ItemBytes(units));
    var stream, u := OnWire(Stream(s, sock)), Unfinished(s, sock);
    assert stream[..|stream| - |u|] == OnWire(units);
  }

  lemma NothingUnfinished(s: State, sock: int)
    requires PublishInv(s) && !Active(s) && !HalfSent(Stream(s, sock))
    ensures Unfinished(s, sock) == [] && DoneFrames(s, sock) == FrameList(s.history, sock)
  {
  }

  /** So, whenever nobody is publishing and no SUBACK is half sent, for the whole stream. */
  lemma {:induction false} ReadsWholeStream(steps: seq<Step>, sock: int, t: byte)
    requires Exec(steps).Some? && Undisturbed(steps, sock) && HandlersFollow(steps, t)
    requires !Active(Exec(steps).value) && !HalfSent(Stream(Exec(steps).value, sock))
    ensures HistoryOk(Exec(steps).value.history)
    ensures var s := Exec(steps).value;
            var ps := ReadPackets(OnWire(Stream(s, sock)));
            && (forall i :: 0 <= i < |ps| ==> IsPacket(ps[i]))
            && PublishPackets(ps) == FrameList(s.history, sock)
            && OtherPackets(ps) == Group(Controls(Stream(s, sock))).whole
  {
    hide Exec, Undisturbed, HandlersFollow, PublishInv, IsPacket, Group, Controls, OnWire;
    ReadsAsPackets(steps, sock, t);
    var s := Exec(steps).value;
    assert HistoryOk(s.history) by { PublishParts(s); }
    NothingUnfinished(s, sock);
    var stream := OnWire(Stream(s, sock));
    assert stream[..|stream| - 0] == stream;
  }

  lemma PublishParts(s: State)
    requires PublishInv(s)
    ensures HistoryOk(s.history)
  {
  }
}
