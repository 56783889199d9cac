/** Runs from the start, with a handler that follows the packet loop, in which a client's stream is split. */
module BrokerSplits {
  import opened Bytes
  import opened Options
  import opened RemainingLength
  import opened PacketHandler
  import opened PacketFraming
  import opened TopicMatch
  import opened BrokerTable
  import opened BrokerProtocol
  import opened BrokerReplies
  import opened BrokerSessions
  import opened BrokerPackets
  import opened PacketReader

  /** A SUBSCRIBE for the filter "a", and a PINGREQ. */
  function ClientPackets(): seq<Packet> {
    [Subscribe([0, 1], [Subscription([97], 0)]), PingReq]
  }

  /** What the packet loop makes of them. */
  function Script(): seq<Action> {
    [AddFilter([97]), Reply([MQTT_SUBACK, 3, 0, 1]), Reply([0]), Reply([MQTT_PINGRESP, 0])]
  }

  lemma SubscribeMeans(subs: nat)
    requires subs == 0
    ensures Meaning(ClientPackets()[0], subs, SUBSCRIBE_AS_INTENDED) == Script()[..3]
  {
    var p := ClientPackets()[0];
    var g := Granted(p.topics, subs);
    assert g == p.topics;
    CStrOfNulFree([97]);
    assert FilterTexts(g) == [[97]] && ReturnCodes(g) == [0];
    assert AddFilters([[97]]) == [AddFilter([97])];
    assert [MQTT_SUBACK, 2 + |g|] + p.id == [MQTT_SUBACK, 3, 0, 1];
    assert Script()[..3] == [AddFilter([97])] + [Reply([MQTT_SUBACK, 3, 0, 1]), Reply([0])];
  }

  lemma ScriptMeant()
    ensures Acceptable(ClientPackets()) && Meanings(ClientPackets(), 0, SUBSCRIBE_AS_INTENDED) == Script()
  {
    hide Meaning;
    var ps := ClientPackets();
    SubscribeMeans(0);
    assert ps[1..] == [PingReq] && ps[1..][1..] == [];
    PingMeans(SubsAfter(ps[0], 0, SUBSCRIBE_AS_INTENDED));
    assert Script() == Script()[..3] + ([Script()[3]] + []);
  }

  lemma PingMeans(subs: nat)
    requires subs <= MAX_SUBS_PER_CLIENT
    ensures Meaning(PingReq, subs, SUBSCRIBE_AS_INTENDED) == [Script()[3]]
  {
  }

  /** Every beginning of the script follows the loop. */
  lemma ScriptFollows(n: nat)
    requires n <= |Script()|
    ensures Follows(Script()[..n], SUBSCRIBE_AS_INTENDED)
  {
    hide Handle, Meanings, EncodeAll;
    ScriptMeant();
    SessionExact(ClientPackets(), [], SUBSCRIBE_AS_INTENDED);
    assert Script()[..n] <= Handle(EncodeAll(ClientPackets()), 0, SUBSCRIBE_AS_INTENDED).acts;
  }

  // Runs.

  /** A run in which task 1 alone handles a client and has asked for the first n actions of the script. */
  ghost predicate Going(run: seq<Step>, u: State, n: nat) {
    && Exec(run) == Some(u) && WellTyped(u) && n <= |Script()|
    && Asked(run, 1) == Script()[..n] && HandlersFollow(run, SUBSCRIBE_AS_INTENDED)
  }

  predicate OneHandler(u: State) {
    forall tid :: tid in u.tasks && u.tasks[tid].Handler? ==> tid == 1
  }

  lemma NoSteps()
    ensures Going([], Initial(), 0)
  {
    InitialInv();
    assert forall n :: 0 <= n <= 0 ==> Exec([][..n]) == Some(Initial());
  }

  lemma FollowsMore(run: seq<Step>, run': seq<Step>, u: State, n: nat)
    requires run' != [] && run'[..|run'| - 1] == run && HandlersFollow(run, SUBSCRIBE_AS_INTENDED)
    requires Exec(run') == Some(u) && OneHandler(u)
    requires n <= |Script()| && Asked(run', 1) == Script()[..n]
    ensures HandlersFollow(run', SUBSCRIBE_AS_INTENDED)
  {
    hide Exec, Asked, Follows;
    forall k, tid: nat | 0 <= k <= |run'| && Exec(run'[..k]).Some?
      && tid in Exec(run'[..k]).value.tasks && Exec(run'[..k]).value.tasks[tid].Handler?
      ensures Follows(Asked(run'[..k], tid), SUBSCRIBE_AS_INTENDED)
    {
      if k < |run'| {
        assert run'[..k] == run[..k];
      } else {
        assert run'[..k] == run';
        ScriptFollows(n);
      }
    }
  }

  /** One more step, with which task 1 stays with the script. */
  lemma Extend(run: seq<Step>, u: State, n: nat, step: Step, m: nat) returns (run': seq<Step>, u': State)
    requires Going(run, u, n) && Enabled(u, step)
    requires m <= |Script()| && AskedAfter(Script()[..n], step, 1) == Script()[..m] && OneHandler(Do(u, step))
    ensures u' == Do(u, step) && Going(run', u', m)
    ensures Undisturbed(run', 5) ==> Undisturbed(run, 5) && !Splits(u, step, 5)
  {
    hide Do, Enabled, Splits, Inv, HandlersFollow, OneHandler, AskedAfter;
    run', u' := run + [step], Do(u, step);
    assert run'[..|run|] == run;
    RunKeeps(run');
    InvTyped(u');
    assert Asked(run', 1) == AskedAfter(Asked(run, 1), step, 1);
    FollowsMore(run, run', u', m);
  }

  /** A client on socket 5 whose handler has stored the filter "a", and another task. */
  predicate Subscribed5(u: State) {
    && u.mutex == None && u.tasks == map[1 := Handler(0, 5, NoCall, false), 2 := Task.Other(NoCall)]
    && TableOk(u.slots) && u.slots[0].sock == 5 && Wants(u.slots[0], [97]) && !u.slots[1].active
    && u.pktId == 1
  }

  /** A client on socket 5 with its handler, and another task. */
  lemma Connects() returns (run: seq<Step>, u: State)
    ensures Going(run, u, 0) && u.mutex == None
    ensures u.tasks == map[1 := Handler(0, 5, NoCall, false), 2 := Task.Other(NoCall)]
    ensures u.slots == [Filled(EmptySlot(), 5), EmptySlot()] && u.pktId == 1 && Stream(u, 5) == []
  {
    hide Exec, EmptySlot, Going;
    NoSteps();
    assert Script()[..0] == [];
    run, u := Extend([], Initial(), 0, Arrive(5), 0);
    run, u := Extend(run, u, 0, Register(0), 0);
    run, u := Extend(run, u, 0, Spawn(1), 0);
    run, u := Extend(run, u, 0, StartOther(2), 0);
  }

  lemma StoresFilter() returns (run: seq<Step>, u: State)
    ensures Going(run, u, 1) && u.mutex == None
    ensures u.tasks == map[1 := Handler(0, 5, NoCall, false), 2 := Task.Other(NoCall)]
    ensures u.slots == [Subscribed(Filled(EmptySlot(), 5), [97]), EmptySlot()] && u.pktId == 1 && Stream(u, 5) == []
  {
    hide Exec, StrNCpy, EmptySlot, Undisturbed, Going, Subscribed;
    run, u := Connects();
    assert WellTyped(u) by { GoingTyped(run, u, 0); }
    assert Script()[..0] == [] && Script()[..1] == [AddFilter([97])];
    run, u := Extend(run, u, 0, SubscribeBegin(1), 0);
    run, u := Extend(run, u, 0, SubscribeOne(1, [97]), 1);
    run, u := Extend(run, u, 1, SubscribeEnd(1), 1);
  }

  lemma Subscribes() returns (run: seq<Step>, u: State)
    ensures Going(run, u, 1) && Subscribed5(u) && Stream(u, 5) == []
  {
    hide Exec, StrNCpy, CStr, EmptySlot, Wants, Undisturbed, Going;
    run, u := StoresFilter();
    assert WellTyped(u) by { GoingTyped(run, u, 1); }
    SubscribedHolds(Filled(EmptySlot(), 5), [97], [97]);
    HolderWants(u.slots[0], [97]);
  }

  lemma HolderWants(s: Slot, topic: seq<byte>)
    requires SlotOk(s) && s.active && Holds(s, topic)
    ensures Wants(s, topic)
  {
    WantsExactly(s, topic);
    assert TopicMatches(topic, topic);
  }

  /** Task 2 publishes an empty payload on "a", and has sent k chunks to socket 5. */
  predicate Sending(u: State, k: nat) {
    && u.mutex == Some(2) && u.tasks == map[1 := Handler(0, 5, NoCall, false), 2 := Task.Other(Publishing(0, k))]
    && TableOk(u.slots) && u.slots[0].sock == 5 && Wants(u.slots[0], [97]) && !u.slots[1].active
    && u.pktId == 1 && u.history != [] && Current(u) == Publication.Publication([97], [], 0, 1, u.slots)
  }

  /** The chunks of its frame. */
  function Frame(): seq<seq<byte>> {
    [[MQTT_PUBLISH], [3], [0, 1], [97], []]
  }

  lemma FrameChunks(table: seq<Slot>)
    requires TableOk(table)
    ensures var p := Publication.Publication([97], [], 0, 1, table); PubOk(p) && Chunks(p) == Frame()
  {
    assert EncodeLen(3) == [3];
  }

  lemma Begins(run: seq<Step>, u: State, n: nat) returns (run': seq<Step>, u': State)
    requires Going(run, u, n) && Subscribed5(u)
    ensures Going(run', u', n) && Sending(u', 0) && Stream(u', 5) == Stream(u, 5)
    ensures Undisturbed(run', 5) ==> Undisturbed(run, 5)
  {
    hide Going, Exec, Wants, Undisturbed, Splits, SlotOk, PubOk, Script;
    FrameChunks(u.slots);
    assert WellTyped(u) && n <= |Script()| by { GoingTyped(run, u, n); }
    run', u' := Extend(run, u, n, PublishBegin(2, [97], [], 0), n);
  }

  lemma GoingTyped(run: seq<Step>, u: State, n: nat)
    requires Going(run, u, n)
    ensures WellTyped(u) && n <= |Script()|
  {
  }

  lemma Sends(run: seq<Step>, u: State, n: nat, k: nat) returns (run': seq<Step>, u': State)
    requires Going(run, u, n) && Sending(u, k) && k < |Frame()|
    ensures Going(run', u', n) && Sending(u', k + 1) && Stream(u', 5) == Stream(u, 5) + [Piece(Frame()[k])]
    ensures Undisturbed(run', 5) ==> Undisturbed(run, 5) && (Frame()[k] != [] ==> !HalfSent(Stream(u, 5)))
  {
    hide Going, Exec, Wants, Undisturbed, HalfSent, SlotOk, PubOk, Script, Chunks, Frame;
    FrameChunks(u.slots);
    assert WellTyped(u) && n <= |Script()| by { GoingTyped(run, u, n); }
    run', u' := Extend(run, u, n, PublishSend(2), n);
  }

  lemma SendsAll(run: seq<Step>, u: State, n: nat) returns (run': seq<Step>, u': State)
    requires Going(run, u, n) && Subscribed5(u)
    ensures Going(run', u', n) && Sending(u', 5)
    ensures Stream(u', 5) == Stream(u, 5) + [Piece([MQTT_PUBLISH]), Piece([3]), Piece([0, 1]), Piece([97]), Piece([])]
    ensures Undisturbed(run', 5) ==> Undisturbed(run, 5) && !HalfSent(Stream(u, 5))
  {
    hide Going, Undisturbed, HalfSent, Sending, Subscribed5;
    run', u' := Begins(run, u, n);
    run', u' := Sends(run', u', n, 0);
    run', u' := Sends(run', u', n, 1);
    run', u' := Sends(run', u', n, 2);
    run', u' := Sends(run', u', n, 3);
    run', u' := Sends(run', u', n, 4);
  }

  /** The second entry is free, so that the publication ends after the first. */
  lemma Ends(run: seq<Step>, u: State, n: nat) returns (run': seq<Step>, u': State)
    requires Going(run, u, n) && Sending(u, 5)
    ensures Going(run', u', n) && Subscribed5(u') && Stream(u', 5) == Stream(u, 5)
    ensures Undisturbed(run', 5) ==> Undisturbed(run, 5)
  {
    hide Going, Exec, Undisturbed, Splits, SlotOk, PubOk, Script, Chunks;
    FrameChunks(u.slots);
    assert WellTyped(u) && n <= |Script()| by { GoingTyped(run, u, n); }
    run', u' := Extend(run, u, n, PublishNext(2), n);
    run', u' := Extend(run', u', n, PublishNext(2), n);
    run', u' := Extend(run', u', n, PublishEnd(2), n);
  }

  /** The handler sends the next reply of the script. */
  lemma Replies(run: seq<Step>, u: State, n: nat) returns (run': seq<Step>, u': State)
    requires Going(run, u, n) && n < |Script()| && Script()[n].Reply? && Script()[n].bytes != []
    requires TableOk(u.slots) && 1 in u.tasks && u.tasks[1] == Handler(0, 5, NoCall, false) && OneHandler(u)
    ensures Going(run', u', n + 1) && u' == Put(u, 5, Control(Script()[n].bytes))
    ensures Undisturbed(run', 5) ==> Undisturbed(run, 5) && !MidFrameFor(u, 5)
  {
    hide Going, Exec, Wants, Undisturbed, MidFrameFor, SlotOk, PubOk, Script, Chunks;
    assert WellTyped(u) && n <= |Script()| by { GoingTyped(run, u, n); }
    assert Script()[..n] + [Script()[n]] == Script()[..n + 1];
    run', u' := Extend(run, u, n, SendReply(1, Script()[n].bytes), n + 1);
  }

  lemma MidFrame5(u: State)
    requires Sending(u, 1)
    ensures MidFrameFor(u, 5)
  {
    hide Wants, SlotOk, PubOk, Chunks;
    FrameChunks(u.slots);
    assert Concat(Frame()[1..]) == Frame()[1..][0] + Concat(Frame()[1..][1..]);
  }

  /** The PINGRESP of a client stands inside a PUBLISH frame for it. */
  lemma {:induction false} SplitHappens() returns (run: seq<Step>)
    ensures Exec(run).Some? && HandlersFollow(run, SUBSCRIBE_AS_INTENDED) && HistoryOk(Exec(run).value.history)
    ensures Stream(Exec(run).value, 5)
            == [Control([MQTT_SUBACK, 3, 0, 1]), Control([0]), Piece([MQTT_PUBLISH]), Control([MQTT_PINGRESP, 0])]
    ensures !Whole(Exec(run).value, 5)
  {
    hide Exec, Whole, Wants, Undisturbed, HandlersFollow, SlotOk, Chunks;
    var u: State;
    run, u := Subscribes();
    run, u := Replies(run, u, 1);
    run, u := Replies(run, u, 2);
    run, u := Begins(run, u, 3);
    run, u := Sends(run, u, 3, 0);
    FrameChunks(u.slots);
    MidFrame5(u);
    run, u := Replies(run, u, 3);
    WholeExactly(run, 5);
  }

  /** The client reads the announced five bytes of a SUBACK, the last of them the first of the frame. */
  lemma HalfRead(items: seq<Item>)
    requires |items| > 1 && items[0] == Control([MQTT_SUBACK, 3, 0, 1]) && items[1] == Piece([MQTT_PUBLISH])
    ensures ReadPackets(OnWire(items))[..1] == [[MQTT_SUBACK, 3, 0, 1, MQTT_PUBLISH]]
  {
    hide FirstPacket, IsPacket;
    var p: seq<byte> := [MQTT_SUBACK, 3, 0, 1, MQTT_PUBLISH];
    var bs := ItemBytes(items);
    var tail := Concat(bs[1..][1..]);
    assert bs[0] == [MQTT_SUBACK, 3, 0, 1] && bs[1..][0] == [MQTT_PUBLISH];
    assert OnWire(items) == bs[0] + Concat(bs[1..]) == bs[0] + (bs[1] + tail);
    assert OnWire(items) == p + tail;
    SubackFirst();
    ReadsFirst(p, tail);
    assert ([p] + ReadPackets(tail))[..1] == [p];
  }

  lemma SubackFirst()
    ensures IsPacket([MQTT_SUBACK, 3, 0, 1, MQTT_PUBLISH])
  {
    FieldIsPacket(MQTT_SUBACK, [3], [0, 1, MQTT_PUBLISH]) by {
      assert [3] + [0, 1, MQTT_PUBLISH] == [3, 0, 1, MQTT_PUBLISH];
    }
    assert [MQTT_SUBACK] + [3] + [0, 1, MQTT_PUBLISH] == [MQTT_SUBACK, 3, 0, 1, MQTT_PUBLISH];
  }

  lemma HalfOpen(head: seq<byte>)
    requires IsHalf(head)
    ensures HalfSent([Control(head)])
  {
    PiecesMore([], Control(head));
    assert [] + [Control(head)] == [Control(head)] && [] + [head] == [head];
    GroupMore([], head);
  }

  /** A PUBLISH frame stands between the two halves of a SUBACK: the client takes the first byte of the frame
      for its return code. */
  lemma {:induction false} SubackSplit() returns (run: seq<Step>)
    ensures Exec(run).Some? && HandlersFollow(run, SUBSCRIBE_AS_INTENDED) && HistoryOk(Exec(run).value.history)
    ensures var s := Exec(run).value;
            && Stream(s, 5) == [Control([MQTT_SUBACK, 3, 0, 1]), Piece([MQTT_PUBLISH]), Piece([3]), Piece([0, 1]),
                                Piece([97]), Piece([]), Control([0])]
            && !Whole(s, 5) && ReadPackets(OnWire(Stream(s, 5)))[..1] == [[MQTT_SUBACK, 3, 0, 1, MQTT_PUBLISH]]
  {
    hide Exec, Whole, Wants, Undisturbed, HandlersFollow, SlotOk, Chunks, OnWire, ReadPackets, HalfSent;
    var u: State;
    run, u := Subscribes();
    run, u := Replies(run, u, 1);
    assert Stream(u, 5) == [Control([MQTT_SUBACK, 3, 0, 1])];
    HalfOpen([MQTT_SUBACK, 3, 0, 1]);
    run, u := SendsAll(run, u, 2);
    assert !Undisturbed(run, 5);
    run, u := Ends(run, u, 2);
    run, u := Replies(run, u, 2);
    WholeExactly(run, 5);
    HalfRead(Stream(u, 5));
  }
}
