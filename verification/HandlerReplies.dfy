/** The replies of a handler that follows the packet loop: whole packets, on its own socket only. */
module HandlerReplies {
  import opened Bytes
  import opened Options
  import opened Socket
  import opened RemainingLength
  import opened PacketHandler
  import opened PacketFraming
  import opened BrokerTable
  import opened BrokerProtocol
  import opened BrokerReplies
  import opened BrokerSessions
  import opened PacketReader
  import opened Seqs

  /** The sends that a handler asks for, in order. */
  function RepliesIn(acts: seq<Action>): seq<seq<byte>> {
    if acts == [] then []
    else
      var last := acts[|acts| - 1];
      RepliesIn(acts[..|acts| - 1]) + (if last.Reply? then [last.bytes] else [])
  }

  lemma RepliesMore(acts: seq<Action>, a: Action)
    ensures RepliesIn(acts + [a]) == RepliesIn(acts) + (if a.Reply? then [a.bytes] else [])
  {
    assert (acts + [a])[..|acts|] == acts;
  }

  lemma {:induction false} RepliesJoin(a: seq<Action>, b: seq<Action>)
    ensures RepliesIn(a + b) == RepliesIn(a) + RepliesIn(b)
    decreases |b|
  {
    if b == [] {
      assert a + b == a;
    } else {
      var init, last := b[..|b| - 1], b[|b| - 1];
      RepliesJoin(a, init);
      assert a + b == a + init + [last];
      RepliesMore(a + init, last);
    }
  }

  lemma {:induction false} NoReplies(acts: seq<Action>)
    requires forall i :: 0 <= i < |acts| ==> !acts[i].Reply?
    ensures RepliesIn(acts) == []
    decreases |acts|
  {
    if acts != [] {
      NoReplies(acts[..|acts| - 1]);
    }
  }

  /** Sends that end between replies: those that follow are put together by themselves. */
  lemma {:induction false} GroupJoin(a: seq<seq<byte>>, b: seq<seq<byte>>)
    requires Group(a).half == None
    ensures Group(a + b) == Replies(Group(a).whole + Group(b).whole, Group(b).half)
    decreases |b|
  {
    if b == [] {
      assert a + b == a;
    } else {
      var init, last := b[..|b| - 1], b[|b| - 1];
      GroupJoin(a, init);
      assert a + b == a + init + [last];
      GroupMore(a + init, last);
    }
  }

  lemma {:induction false} GroupPrefix(a: seq<seq<byte>>, b: seq<seq<byte>>)
    requires a <= b
    ensures Group(a).whole <= Group(b).whole
    decreases |b|
  {
    if |a| < |b| {
      GroupPrefix(a, b[..|b| - 1]);
    } else {
      assert a == b;
    }
  }

  // The replies of the packet loop.

  /** Every reply is a whole packet, and none is a PUBLISH. */
  predicate ReplyPackets(whole: seq<seq<byte>>) {
    forall i :: 0 <= i < |whole| ==> IsPacket(whole[i]) && !IsPublish(whole[i])
  }

  /** Sends that make whole replies. */
  predicate Complete(sends: seq<seq<byte>>) {
    Group(sends).half == None && ReplyPackets(Group(sends).whole)
  }

  lemma CompleteJoin(a: seq<seq<byte>>, b: seq<seq<byte>>)
    requires Complete(a) && Complete(b)
    ensures Complete(a + b)
  {
    hide Group, IsPacket, IsPublish;
    GroupJoin(a, b);
  }

  lemma OneReply(acts: seq<Action>, p: seq<byte>)
    requires acts != [] && acts[|acts| - 1] == Reply(p) && forall i :: 0 <= i < |acts| - 1 ==> !acts[i].Reply?
    requires IsPacket(p) && !IsPublish(p) && !IsHalf(p)
    ensures Complete(RepliesIn(acts))
  {
    hide IsPacket, IsPublish, IsHalf, Group;
    NoReplies(acts[..|acts| - 1]);
    assert RepliesIn(acts) == [] + [p];
    GroupMore([], p);
    GroupNone();
  }

  lemma GroupNone()
    ensures Group([]) == Replies([], None) && Complete([])
  {
  }

  /** CONNACK and PINGRESP. */
  lemma ShortReplies()
    ensures IsPacket([MQTT_CONNACK, 2, 0, 0]) && IsPacket([MQTT_PINGRESP, 0])
  {
    FieldIsPacket(MQTT_CONNACK, [2], [0, 0]) by { assert [2] + [0, 0] == [2, 0, 0]; }
    assert [MQTT_CONNACK] + [2] + [0, 0] == [MQTT_CONNACK, 2, 0, 0];
    FieldIsPacket(MQTT_PINGRESP, [0], []) by { assert [0] + [] == [0]; }
    assert [MQTT_PINGRESP] + [0] + [] == [MQTT_PINGRESP, 0];
  }

  lemma ConnectReplies(s: seq<byte>, left: u32, subs: nat)
    ensures Complete(RepliesIn(ConnectArm(s, left, subs).acts))
  {
    hide CStr, ReadStr, ConnectHeader, Complete, RepliesIn, IsPacket;
    var acts := ConnectArm(s, left, subs).acts;
    ShortReplies();
    if acts == [] {
      NothingSent(acts);
    } else {
      OneReply(acts, [MQTT_CONNACK, 2, 0, 0]);
    }
  }

  lemma NothingSent(acts: seq<Action>)
    requires forall i :: 0 <= i < |acts| ==> !acts[i].Reply?
    ensures Complete(RepliesIn(acts))
  {
    NoReplies(acts);
    GroupNone();
  }

  lemma TwoSends(head: seq<byte>, codes: seq<byte>)
    requires codes == [] <==> !IsHalf(head)
    requires head != [] && IsPacket(head + codes) && !IsPublish(head + codes)
    ensures Complete([head, codes])
  {
    hide IsPacket, IsPublish, IsHalf, Group;
    var sends := [head, codes];
    assert sends[..1] == [] + [head] && sends == sends[..1] + [codes];
    GroupMore([], head);
    GroupMore(sends[..1], codes);
    GroupNone();
    if codes == [] { assert head + codes == head; }
  }

  /** The first send of a SUBACK announces whether return codes are to come. */
  lemma SubackHead(id: seq<byte>, codes: seq<byte>)
    requires |id| == 2 && |codes| <= MAX_SUBS_PER_CLIENT
    ensures var head := [MQTT_SUBACK] + EncodeLen(2 + |codes|) + id;
            head != [] && !IsPublish(head + codes) && (IsHalf(head) <==> codes != [])
  {
    var n := 2 + |codes|;
    assert EncodeLen(n) == [n];
    var head := [MQTT_SUBACK] + [n] + id;
    assert |head| == 4 && head[0] == MQTT_SUBACK && head[1] == n && (head + codes)[0] == MQTT_SUBACK;
  }

  lemma SubackSends(id: seq<byte>, codes: seq<byte>)
    requires |id| == 2 && |codes| <= MAX_SUBS_PER_CLIENT
    ensures Complete([[MQTT_SUBACK] + EncodeLen(2 + |codes|) + id, codes])
  {
    hide IsPacket, Complete, IsHalf, IsPublish, EncodeLen;
    var field := EncodeLen(2 + |codes|);
    SubackHead(id, codes);
    HeaderIsPacket(MQTT_SUBACK, id + codes);
    assert |id + codes| == 2 + |codes|;
    JoinAssoc([MQTT_SUBACK] + field, id, codes);
    TwoSends([MQTT_SUBACK] + field + id, codes);
  }

  lemma SubscribeReplies(s: seq<byte>, len: u32, subs: nat)
    requires subs <= MAX_SUBS_PER_CLIENT
    ensures Complete(RepliesIn(SubscribeArm(s, len, subs).acts))
  {
    hide SubLoop, CStr, EncodeLen, Complete, RepliesIn;
    var r := SubLoop(AfterExact(s, 2), Sub32(len, 2), subs);
    var fs := AddFilters(r.filters);
    NothingSent(fs);
    if r.ok && r.left <= |r.rest| {
      var head := [MQTT_SUBACK] + EncodeLen(2 + |r.codes|) + PacketId(s);
      SubackSends(PacketId(s), r.codes);
      TwoReplies(fs, head, r.codes);
    }
  }

  lemma TwoReplies(fs: seq<Action>, a: seq<byte>, b: seq<byte>)
    requires (forall i :: 0 <= i < |fs| ==> !fs[i].Reply?) && Complete([a, b])
    ensures Complete(RepliesIn(fs + [Reply(a), Reply(b)]))
  {
    hide Complete;
    NoReplies(fs);
    RepliesMore(fs, Reply(a));
    RepliesMore(fs + [Reply(a)], Reply(b));
    assert fs + [Reply(a)] + [Reply(b)] == fs + [Reply(a), Reply(b)];
    assert [] + [a] + [b] == [a, b];
  }

  lemma PublishReplies(s: seq<byte>, first: byte, len: u32, subs: nat)
    ensures Complete(RepliesIn(PublishArm(s, first, len, subs).acts))
  {
    hide CStr, ReadStr, Complete, RepliesIn;
    NothingSent(PublishArm(s, first, len, subs).acts);
  }

  lemma TurnReplies(s: seq<byte>, subs: nat, t: byte)
    requires subs <= MAX_SUBS_PER_CLIENT
    ensures Complete(RepliesIn(Iterate(s, subs, t).acts))
  {
    hide ConnectArm, SubscribeArm, PublishArm, DecodeDigits, Complete, RepliesIn, IsPacket;
    if s != [] && DecodeLen(s[1..]).Len? {
      var d := DecodeLen(s[1..]);
      ConnectReplies(d.rest, d.value, subs);
      SubscribeReplies(d.rest, d.value, subs);
      PublishReplies(d.rest, s[0], d.value, subs);
      ShortReplies();
      OneReply([Reply([MQTT_PINGRESP, 0])], [MQTT_PINGRESP, 0]);
    }
    NothingSent([]);
  }

  /** Whatever bytes it reads, the packet loop sends whole packets other than PUBLISH. */
  lemma {:induction false} HandleReplies(s: seq<byte>, subs: nat, t: byte)
    requires subs <= MAX_SUBS_PER_CLIENT
    ensures Complete(RepliesIn(Handle(s, subs, t).acts))
    decreases |s|
  {
    hide Handle, Iterate, Complete, RepliesIn;
    var o := Iterate(s, subs, t);
    TurnReplies(s, subs, t);
    HandleStep(s, subs, t);
    if o.Next? {
      var h := Handle(o.rest, o.subs, t);
      HandleReplies(o.rest, o.subs, t);
      RepliesJoin(o.acts, h.acts);
      CompleteJoin(RepliesIn(o.acts), RepliesIn(h.acts));
    }
  }

  // On which socket.

  function SentNow(s: State, step: Step, sock: int): seq<seq<byte>> {
    if step.SendReply? && step.tid in s.tasks && s.tasks[step.tid].Handler? && s.tasks[step.tid].sock == sock
    then [step.bytes] else []
  }

  lemma ControlsPut(s: State, sock: int, item: Item, other: int)
    ensures Controls(Stream(Put(s, sock, item), other))
            == Controls(Stream(s, other)) + (if other == sock && item.Control? then [item.bytes] else [])
  {
    var items := Stream(s, sock) + [item];
    assert items[..|items| - 1] == Stream(s, sock);
  }

  lemma ControlsStep(s: State, step: Step, sock: int)
    requires WellTyped(s) && Enabled(s, step)
    ensures Controls(Stream(Do(s, step), sock)) == Controls(Stream(s, sock)) + SentNow(s, step, sock)
  {
    hide Controls, TableOk, SlotOk, PublishChunks, Wants, StrNCpy, CStr;
    match step
    case SendReply(tid, bytes) => ControlsPut(s, s.tasks[tid].sock, Control(bytes), sock);
    case PublishSend(tid) =>
      var c := s.tasks[tid].call;
      ControlsPut(s, s.slots[c.i].sock, Piece(Chunks(Current(s))[c.k]), sock);
    case _ =>
  }

  lemma AskedReplies(before: seq<Action>, step: Step, tid: nat)
    ensures RepliesIn(AskedAfter(before, step, tid))
            == if step.Spawn? && step.tid == tid then []
               else RepliesIn(before) + (if step.SendReply? && step.tid == tid then [step.bytes] else [])
  {
    var after := AskedAfter(before, step, tid);
    if after != before && after != [] {
      RepliesMore(before, after[|after| - 1]);
    }
  }

  /** A socket has been sent exactly the replies of the handler it belongs to, and none before it has one. */
  ghost predicate OwnReplies(steps: seq<Step>, s: State) {
    && (forall sock :: sock !in s.known ==> Controls(Stream(s, sock)) == [])
    && (s.acceptor.Accepted? || s.acceptor.Registered? ==> Controls(Stream(s, s.acceptor.sock)) == [])
    && (forall tid: nat :: tid in s.tasks && s.tasks[tid].Handler? ==>
          Controls(Stream(s, s.tasks[tid].sock)) == RepliesIn(Asked(steps, tid)))
  }

  /** A reply goes to a known socket, and to no other handler's and not to the acceptor's. */
  lemma RepliesApart(s: State, tid: nat)
    requires Inv(s) && IdleHandler(s, tid)
    ensures s.tasks[tid].sock in s.known
    ensures s.acceptor.Accepted? || s.acceptor.Registered? ==> s.acceptor.sock != s.tasks[tid].sock
    ensures forall other: nat :: other in s.tasks && s.tasks[other].Handler? && other != tid ==>
              s.tasks[other].sock != s.tasks[tid].sock
  {
    hide TableOk, SlotOk, StreamInv, MutexInv;
    var idx := s.tasks[tid].idx;
    assert HandlerOwns(s, tid, idx);
    if s.acceptor.Registered? { assert AcceptorOwns(s, s.acceptor.idx); }
    forall other: nat | other in s.tasks && s.tasks[other].Handler? && other != tid
      ensures s.tasks[other].sock != s.tasks[tid].sock
    {
      assert HandlerOwns(s, other, s.tasks[other].idx);
      assert !HandlerOwns(s, other, idx);
    }
  }

  /** Where the handlers and the acceptor of the next state come from. */
  lemma HandlersBefore(s: State, step: Step)
    requires Inv(s) && Enabled(s, step)
    ensures var t := Do(s, step);
            && s.known <= t.known
            && (t.acceptor.Accepted? || t.acceptor.Registered? ==>
                  (step.Arrive? && t.acceptor.sock !in s.known) ||
                  ((s.acceptor.Accepted? || s.acceptor.Registered?) && s.acceptor.sock == t.acceptor.sock))
            && (forall tid :: tid in t.tasks && t.tasks[tid].Handler? ==>
                  (step == Spawn(tid) && s.acceptor.Registered? && t.tasks[tid].sock == s.acceptor.sock) ||
                  (step != Spawn(tid) && tid in s.tasks && s.tasks[tid].Handler?
                   && t.tasks[tid].sock == s.tasks[tid].sock))
  {
    hide TableOk, SlotOk, StreamInv, MutexInv, OwnerInv, SocketsOpen, PublishChunks, Wants, StrNCpy, CStr;
  }

  lemma OwnStep(steps: seq<Step>, s: State, step: Step)
    requires Inv(s) && Enabled(s, step) && OwnReplies(steps, s)
    ensures OwnReplies(steps + [step], Do(s, step))
  {
    hide Inv, Enabled, Do, Controls, RepliesIn, AskedAfter;
    InvTyped(s);
    var t, run := Do(s, step), steps + [step];
    assert run[..|steps|] == steps;
    HandlersBefore(s, step);
    if step.SendReply? { RepliesApart(s, step.tid) by { Replier(s, step); } }
    assert forall sock :: Controls(Stream(t, sock)) == Controls(Stream(s, sock)) + SentNow(s, step, sock) by {
      forall sock ensures Controls(Stream(t, sock)) == Controls(Stream(s, sock)) + SentNow(s, step, sock) {
        ControlsStep(s, step, sock);
      }
    }
    forall tid: nat | tid in t.tasks && t.tasks[tid].Handler?
      ensures Controls(Stream(t, t.tasks[tid].sock)) == RepliesIn(Asked(run, tid))
    {
      AskedReplies(Asked(steps, tid), step, tid);
    }
  }

  lemma Replier(s: State, step: Step)
    requires WellTyped(s) && Enabled(s, step) && step.SendReply?
    ensures IdleHandler(s, step.tid) && Do(s, step).tasks == s.tasks
  {
  }

  lemma {:induction false} OwnInEveryRun(steps: seq<Step>)
    requires Exec(steps).Some?
    ensures OwnReplies(steps, Exec(steps).value)
    decreases |steps|
  {
    hide Inv, Enabled, Do, OwnReplies, Initial;
    if steps == [] {
      OwnInitially();
    } else {
      var init, step := steps[..|steps| - 1], steps[|steps| - 1];
      OwnInEveryRun(init);
      RunKeeps(init);
      OwnStep(init, Exec(init).value, step);
      assert steps == init + [step];
    }
  }

  lemma OwnInitially()
    ensures OwnReplies([], Initial())
  {
  }

  /** The sends are those of a beginning of what the packet loop makes of some bytes. */
  ghost predicate Followed(sends: seq<seq<byte>>, t: byte) {
    exists acts :: Follows(acts, t) && RepliesIn(acts) == sends
  }

  /** In every run in which the handlers follow the packet loop: what each socket has been sent by way of
      replies is a beginning of the replies of the packet loop to some bytes. */
  lemma {:induction false} FollowersReply(steps: seq<Step>, sock: int, t: byte)
    requires Exec(steps).Some? && HandlersFollow(steps, t)
    ensures Followed(Controls(Stream(Exec(steps).value, sock)), t)
    decreases |steps|
  {
    hide Inv, Enabled, Do, Initial, Followed, Controls, HandlersFollow;
    if steps == [] {
      NothingFollowed(sock, t);
    } else {
      var init, step := steps[..|steps| - 1], steps[|steps| - 1];
      FollowPrefix(steps, |init|, t);
      FollowersReply(init, sock, t);
      var s := Exec(init).value;
      RunKeeps(init);
      InvTyped(s);
      ControlsStep(s, step, sock);
      if SentNow(s, step, sock) != [] {
        Replier(s, step);
        HandlerFollowed(steps, step.tid, t);
      } else {
        assert Controls(Stream(s, sock)) + [] == Controls(Stream(s, sock));
      }
    }
  }

  lemma NothingFollowed(sock: int, t: byte)
    ensures Followed(Controls(Stream(Initial(), sock)), t)
  {
    hide Handle;
    assert [] <= Handle([], 0, t).acts;
    assert Follows([], t) && RepliesIn([]) == [];
  }

  lemma HandlerFollowed(steps: seq<Step>, tid: nat, t: byte)
    requires Exec(steps).Some? && HandlersFollow(steps, t)
    requires tid in Exec(steps).value.tasks && Exec(steps).value.tasks[tid].Handler?
    ensures Followed(Controls(Stream(Exec(steps).value, Exec(steps).value.tasks[tid].sock)), t)
  {
    hide Exec, Controls, Asked, RepliesIn, Follows;
    OwnInEveryRun(steps);
    assert steps[..|steps|] == steps;
    assert Follows(Asked(steps, tid), t);
  }

  /** Put together, they are whole packets other than PUBLISH, the first half of a SUBACK at the end apart. */
  lemma FollowedPackets(sends: seq<seq<byte>>, t: byte)
    requires Followed(sends, t)
    ensures ReplyPackets(Group(sends).whole)
  {
    hide Handle, IsPacket, IsPublish, Group;
    var acts :| Follows(acts, t) && RepliesIn(acts) == sends;
    var bytes :| acts <= Handle(bytes, 0, t).acts;
    var all := Handle(bytes, 0, t).acts;
    HandleReplies(bytes, 0, t);
    assert all == acts + all[|acts|..];
    RepliesJoin(acts, all[|acts|..]);
    GroupPrefix(sends, RepliesIn(all));
  }
}
