/** Replies of a client's own handler and the PUBLISH frames on its socket, in every run. */
module BrokerReplies {
  import opened Bytes
  import opened Options
  import opened PacketHandler
  import opened BrokerTable
  import opened BrokerProtocol

  /** n bytes are whole frames: those of a beginning of the history. */
  ghost predicate AtBoundary(h: seq<Publication>, sock: int, n: nat)
    requires HistoryOk(h)
  {
    exists i :: 0 <= i <= |h| && |FrameBytes(h[..i], sock)| == n
  }

  /** The bytes of PUBLISH frames in a stream. */
  function FrameCount(items: seq<Item>): nat {
    |Concat(Pieces(items))|
  }

  /** The sends of replies in a stream, in order. */
  function Controls(items: seq<Item>): seq<seq<byte>> {
    if items == [] then []
    else
      var last := items[|items| - 1];
      Controls(items[..|items| - 1]) + (if last.Control? then [last.bytes] else [])
  }

  /** Replies put together from their sends: a SUBACK takes two of them, and `half` is its first. */
  datatype Replies = Replies(whole: seq<seq<byte>>, half: Option<seq<byte>>)

  /** The first send of a SUBACK: the header announces return codes that are still to come. */
  predicate IsHalf(bytes: seq<byte>) {
    |bytes| > 1 && bytes[0] == MQTT_SUBACK && |bytes| - 2 < bytes[1]
  }

  /** A send without bytes, as that of no return codes, adds nothing. */
  function Add(r: Replies, bytes: seq<byte>): Replies {
    if bytes == [] then r
    else match r.half
      case Some(head) => Replies(r.whole + [head + bytes], None)
      case None => if IsHalf(bytes) then Replies(r.whole, Some(bytes)) else Replies(r.whole + [bytes], None)
  }

  function Group(sends: seq<seq<byte>>): Replies {
    if sends == [] then Replies([], None) else Add(Group(sends[..|sends| - 1]), sends[|sends| - 1])
  }

  lemma GroupMore(sends: seq<seq<byte>>, b: seq<byte>)
    ensures Group(sends + [b]) == Add(Group(sends), b)
  {
    assert (sends + [b])[..|sends|] == sends;
  }

  /** The stream ends between the two sends of a SUBACK, PUBLISH chunks apart. */
  predicate HalfSent(items: seq<Item>) {
    Group(Controls(items)).half.Some?
  }

  /** Every frame and every reply on the socket is in one piece: no byte of a reply stands between two bytes
      of a frame, and no byte of a frame between the two sends of a SUBACK. */
  ghost predicate Whole(s: State, sock: int)
    requires HistoryOk(s.history)
  {
    var items := Stream(s, sock);
    forall j :: 0 <= j < |items| && items[j].bytes != [] ==> Stands(s.history, sock, items[..j], items[j].Control?)
  }

  /** What may follow the items. */
  ghost predicate Stands(h: seq<Publication>, sock: int, items: seq<Item>, reply: bool)
    requires HistoryOk(h)
  {
    if reply then AtBoundary(h, sock, FrameCount(items)) else !HalfSent(items)
  }

  /** The step is a reply on `sock` while a publisher is in the middle of a frame for it, or a chunk for
      `sock` while its handler is in the middle of a SUBACK. */
  predicate Splits(s: State, step: Step, sock: int) {
    || (step.SendReply? && step.bytes != [] && IdleHandler(s, step.tid) && s.tasks[step.tid].sock == sock
        && MidFrameFor(s, sock))
    || (step.PublishSend? && SendsTo(s, step.tid, sock) && HalfSent(Stream(s, sock)))
  }

  /** The next chunk of the publisher goes to `sock`, and is not empty. */
  predicate SendsTo(s: State, tid: nat, sock: int) {
    && InPublish(s, tid)
    && var c := s.tasks[tid].call;
       && c.i < |s.slots| && s.slots[c.i].sock == sock
       && c.k < |Chunks(Current(s))| && Chunks(Current(s))[c.k] != []
  }

  predicate MidFrameFor(s: State, sock: int) {
    && Active(s) && s.history != [] && PubOk(Current(s))
    && var c := s.tasks[s.mutex.value].call;
       && c.i < |s.slots| && s.slots[c.i].sock == sock && 0 < c.k < |Chunks(Current(s))|
       && Concat(Chunks(Current(s))[c.k..]) != []
  }

  lemma {:induction false} CountGrows(items: seq<Item>, j: nat)
    requires j <= |items|
    ensures FrameCount(items[..j]) <= FrameCount(items)
    decreases |items|
  {
    if j < |items| {
      hide Concat;
      var init, last := items[..|items| - 1], items[|items| - 1];
      CountGrows(init, j);
      assert init[..j] == items[..j];
      ConcatJoin(Pieces(init), if last.Piece? then [last.bytes] else []);
    } else {
      assert items[..j] == items;
    }
  }

  lemma {:induction false} FramesGrow(h: seq<Publication>, sock: int, i: nat, j: nat)
    requires HistoryOk(h) && i <= j <= |h|
    ensures |FrameBytes(h[..i], sock)| <= |FrameBytes(h[..j], sock)|
    decreases j - i
  {
    hide PublishFrame, Selected;
    if i < j {
      FramesGrow(h, sock, i, j - 1);
      assert h[..j][..j - 1] == h[..j - 1];
    }
  }

  /** A longer history has the same boundaries, up to where the shorter one ends. */
  lemma BoundaryStays(h: seq<Publication>, p: Publication, sock: int, n: nat)
    requires HistoryOk(h) && HistoryOk(h + [p]) && n <= |FrameBytes(h, sock)|
    ensures AtBoundary(h + [p], sock, n) <==> AtBoundary(h, sock, n)
  {
    hide FrameBytes;
    var g := h + [p];
    assert h[..|h|] == h && g[..|h|] == h;
    if AtBoundary(h, sock, n) {
      var i :| 0 <= i <= |h| && |FrameBytes(h[..i], sock)| == n;
      assert g[..i] == h[..i];
    }
    if AtBoundary(g, sock, n) {
      var i :| 0 <= i <= |g| && |FrameBytes(g[..i], sock)| == n;
      if i <= |h| {
        assert g[..i] == h[..i];
      } else {
        FramesGrow(g, sock, |h|, i);
      }
    }
  }

  /** Where the stream stands: at a boundary, unless a publisher is in the middle of a frame for it. */
  lemma StandsAtBoundary(s: State, sock: int)
    requires Inv(s)
    ensures AtBoundary(s.history, sock, FrameCount(Stream(s, sock))) <==> !MidFrameFor(s, sock)
  {
    hide FrameBytes, Frames, Pieces, Progress, Concat, Selected, PublishChunks, Wants, TableOk, OwnerInv;
    var h := s.history;
    assert Pieces(Stream(s, sock)) == Expected(s, sock);
    assert h[..|h|] == h;
    if Active(s) {
      var c, p := s.tasks[s.mutex.value].call, Current(s);
      var before := h[..|h| - 1];
      ProgressCases(p, c.i, c.k, sock);
      FramesAsBytes(before, sock);
      ConcatJoin(Frames(before, sock), Progress(p, c.i, c.k, sock));
      FrameBytesLast(h, sock);
      var n := FrameCount(Stream(s, sock));
      if MidFrameFor(s, sock) && AtBoundary(h, sock, n) {
        var i :| 0 <= i <= |h| && |FrameBytes(h[..i], sock)| == n;
        if i < |h| {
          FramesGrow(h, sock, i, |h| - 1);
        }
      }
    } else {
      FramesAsBytes(h, sock);
    }
  }

  lemma FrameBytesLast(h: seq<Publication>, sock: int)
    requires HistoryOk(h) && h != []
    ensures var p := h[|h| - 1];
            |FrameBytes(h, sock)| == |FrameBytes(h[..|h| - 1], sock)|
              + (if Selected(p.table, p.topic, sock) then |PublishFrame(p.topic, p.payload, p.qos, p.pktId)| else 0)
  {
  }

  /** A frame in two parts; the first is empty only without any chunk. */
  lemma FrameSplit(p: Publication, k: nat)
    requires PubOk(p) && k <= |Chunks(p)|
    ensures Concat(Chunks(p)[..k]) + Concat(Chunks(p)[k..]) == PublishFrame(p.topic, p.payload, p.qos, p.pktId)
    ensures k > 0 ==> Concat(Chunks(p)[..k]) != []
    ensures Concat(Chunks(p)[..0]) == [] && Concat(Chunks(p)[|Chunks(p)|..]) == []
  {
    hide TableOk;
    var cs := Chunks(p);
    assert cs[..k] + cs[k..] == cs;
    ConcatJoin(cs[..k], cs[k..]);
    if k > 0 { assert Concat(cs[..k]) == cs[0] + Concat(cs[..k][1..]); }
  }

  lemma ProgressCases(p: Publication, i: nat, k: nat, sock: int)
    requires PubOk(p) && DistinctSockets(p.table) && i <= |p.table| && k <= |Chunks(p)|
    requires k > 0 ==> i < |p.table| && Wants(p.table[i], p.topic)
    ensures var n := |Concat(Progress(p, i, k, sock))|;
            var frame := PublishFrame(p.topic, p.payload, p.qos, p.pktId);
            var all := if Selected(p.table, p.topic, sock) then |frame| else 0;
            if i < |p.table| && p.table[i].sock == sock && 0 < k < |Chunks(p)| && Concat(Chunks(p)[k..]) != []
            then 0 < n < all
            else n == 0 || n == all
  {
    hide PublishChunks, Wants, Concat, TableOk;
    if i < |p.table| {
      SelectedMore(p, i, sock);
    }
    PrefixSelected(p, i, sock);
    FrameSplit(p, k);
    FrameSplit(p, |Chunks(p)|);
    assert Chunks(p)[..|Chunks(p)|] == Chunks(p);
    ConcatEmpty();
  }

  lemma PrefixSelected(p: Publication, i: nat, sock: int)
    requires PubOk(p) && i <= |p.table|
    ensures Selected(p.table[..i], p.topic, sock) ==> Selected(p.table, p.topic, sock)
    ensures i < |p.table| && p.table[i].sock == sock && Wants(p.table[i], p.topic) ==> Selected(p.table, p.topic, sock)
  {
    hide Wants;
    SelectedByWants(p.table[..i], p.topic, sock);
    SelectedByWants(p.table, p.topic, sock);
    if Selected(p.table[..i], p.topic, sock) {
      var j :| 0 <= j < i && p.table[..i][j].sock == sock && Wants(p.table[..i][j], p.topic);
      assert p.table[j] == p.table[..i][j];
    }
  }

  /** One more item: a reply has to stand at a boundary, a chunk outside a SUBACK. */
  lemma ItemWhole(s: State, t: State, sock: int, item: Item)
    requires HistoryOk(s.history) && t.history == s.history && Stream(t, sock) == Stream(s, sock) + [item]
    ensures Whole(t, sock) <==>
            Whole(s, sock) && (item.bytes != [] ==> Stands(s.history, sock, Stream(s, sock), item.Control?))
  {
    hide Stands;
    var h, a, b := s.history, Stream(s, sock), Stream(t, sock);
    assert b[..|a|] == a && b[|a|] == item;
    assert forall j :: 0 <= j < |a| ==> b[j] == a[j] && b[..j] == a[..j];
    if Whole(t, sock) {
      forall j | 0 <= j < |a| && a[j].bytes != [] ensures Stands(h, sock, a[..j], a[j].Control?) {
        assert b[j] == a[j] && b[..j] == a[..j];
      }
    }
  }

  lemma BeginWhole(s: State, t: State, p: Publication, sock: int)
    requires HistoryOk(s.history) && t.history == s.history + [p] && HistoryOk(t.history)
    requires Stream(t, sock) == Stream(s, sock) && FrameCount(Stream(s, sock)) <= |FrameBytes(s.history, sock)|
    ensures Whole(t, sock) <==> Whole(s, sock)
  {
    hide FrameCount, AtBoundary, FrameBytes, HalfSent;
    var items := Stream(s, sock);
    forall j, reply | 0 <= j < |items|
      ensures Stands(t.history, sock, items[..j], reply) <==> Stands(s.history, sock, items[..j], reply)
    {
      CountGrows(items, j);
      BoundaryStays(s.history, p, sock, FrameCount(items[..j]));
    }
  }

  lemma WholeBegin(s: State, step: Step, sock: int)
    requires Inv(s) && Enabled(s, step) && step.PublishBegin?
    ensures HistoryOk(Do(s, step).history)
    ensures Whole(Do(s, step), sock) <==> Whole(s, sock)
  {
    hide Whole, AtBoundary, HalfSent, Pieces, Concat, Frames, FrameBytes, Progress, Selected, PublishChunks,
      Wants, TableOk, SlotOk, OwnerInv;
    StepKeeps(s, step);
    assert Pieces(Stream(s, sock)) == Expected(s, sock);
    FramesAsBytes(s.history, sock);
    BeginWhole(s, Do(s, step), Current(Do(s, step)), sock);
  }

  lemma WholeSend(s: State, step: Step, sock: int)
    requires Inv(s) && Enabled(s, step) && step.PublishSend?
    ensures HistoryOk(Do(s, step).history)
    ensures Whole(Do(s, step), sock) <==> Whole(s, sock) && !Splits(s, step, sock)
  {
    hide Whole, AtBoundary, HalfSent, Pieces, Concat, Frames, FrameBytes, Progress, Selected, PublishChunks,
      Wants, TableOk, SlotOk, OwnerInv;
    var t, c := Do(s, step), s.tasks[step.tid].call;
    if s.slots[c.i].sock == sock {
      ItemWhole(s, t, sock, Piece(Chunks(Current(s))[c.k]));
    } else {
      SameWhole(s, t, sock);
    }
  }

  lemma WholeReply(s: State, step: Step, sock: int)
    requires Inv(s) && Enabled(s, step) && step.SendReply?
    ensures HistoryOk(Do(s, step).history)
    ensures Whole(Do(s, step), sock) <==> Whole(s, sock) && !Splits(s, step, sock)
  {
    hide Whole, AtBoundary, HalfSent, Pieces, Concat, Frames, FrameBytes, Progress, Selected, PublishChunks,
      Wants, TableOk, SlotOk, OwnerInv;
    var t := Do(s, step);
    if s.tasks[step.tid].sock == sock {
      ItemWhole(s, t, sock, Control(step.bytes));
      StandsAtBoundary(s, sock);
    } else {
      SameWhole(s, t, sock);
    }
  }

  lemma WholeStep(s: State, step: Step, sock: int)
    requires Inv(s) && Enabled(s, step)
    ensures HistoryOk(Do(s, step).history)
    ensures Whole(Do(s, step), sock) <==> Whole(s, sock) && !Splits(s, step, sock)
  {
    hide Whole, AtBoundary, HalfSent, PublishChunks, Wants, TableOk, SlotOk, StrNCpy, CStr, OwnerInv, MutexInv,
      Pieces, Frames, Expected;
    if step.PublishBegin? {
      WholeBegin(s, step, sock);
    } else if step.PublishSend? {
      WholeSend(s, step, sock);
    } else if step.SendReply? {
      WholeReply(s, step, sock);
    } else {
      SameWhole(s, Do(s, step), sock);
    }
  }

  lemma SameWhole(s: State, t: State, sock: int)
    requires HistoryOk(s.history) && t.history == s.history && Stream(t, sock) == Stream(s, sock)
    ensures Whole(t, sock) <==> Whole(s, sock)
  {
  }

  /** No step of the run splits a frame or a reply on `sock`. */
  predicate Undisturbed(steps: seq<Step>, sock: int) {
    steps == [] ||
    (var before := Exec(steps[..|steps| - 1]);
     Undisturbed(steps[..|steps| - 1], sock) && (before.Some? ==> !Splits(before.value, steps[|steps| - 1], sock)))
  }

  /** In every run, for every client: every frame and every reply is in one piece, the last one so far as it
      has been sent, if and only if its handler never replied while a publisher was in the middle of a frame
      for it, and no publisher sent it bytes of a frame between the two sends of a SUBACK. */
  lemma {:induction false} WholeExactly(steps: seq<Step>, sock: int)
    requires Exec(steps).Some?
    ensures HistoryOk(Exec(steps).value.history)
    ensures Whole(Exec(steps).value, sock) <==> Undisturbed(steps, sock)
    decreases |steps|
  {
    hide Inv, Do, Enabled, Whole, Splits, Initial;
    if steps == [] {
      InitiallyWhole(sock);
    } else {
      var init := steps[..|steps| - 1];
      WholeExactly(init, sock);
      RunKeeps(init);
      WholeStep(Exec(init).value, steps[|steps| - 1], sock);
    }
  }

  lemma InitiallyWhole(sock: int)
    ensures HistoryOk(Initial().history) && Whole(Initial(), sock)
  {
  }

  lemma InvTyped(s: State)
    requires Inv(s)
    ensures WellTyped(s)
  {
  }
}
