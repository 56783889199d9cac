/** Both ends of a connection: what a client reads out of the PUBLISH bytes it is sent, and what a handler
    that follows the packet loop asks for. */
module BrokerSessions {
  import opened Bytes
  import opened PacketHandler
  import opened PacketFraming
  import opened BrokerTable
  import opened BrokerProtocol
  import opened PublishRoundTrip
  import opened Seqs

  /** Topic and payload of the publications that selected a client, in order. */
  function Published(h: seq<Publication>, sock: int): seq<Action>
    requires HistoryOk(h)
    decreases |h|
  {
    if h == [] then []
    else
      var p := h[|h| - 1];
      Published(h[..|h| - 1], sock) + (if Selected(p.table, p.topic, sock) then [Publish(p.topic, p.payload)] else [])
  }

  /** The publications that selected a client fit the buffers of the packet loop. */
  predicate AllFit(h: seq<Publication>, sock: int)
    requires HistoryOk(h)
  {
    forall i :: 0 <= i < |h| && Selected(h[i].table, h[i].topic, sock) ==>
      |h[i].topic| < MAX_TOPIC_LEN && |h[i].payload| < JSON_BUF_SIZE
  }

  lemma {:induction false} EncodeAllJoin(a: seq<Packet>, b: seq<Packet>)
    requires Acceptable(a) && Acceptable(b)
    ensures Acceptable(a + b) && EncodeAll(a + b) == EncodeAll(a) + EncodeAll(b)
  {
    hide Encode;
    if a == [] {
      assert a + b == b;
    } else {
      EncodeAllJoin(a[1..], b);
      JoinHead(a, b);
      JoinAssoc(Encode(a[0]), EncodeAll(a[1..]), EncodeAll(b));
    }
  }

  lemma {:induction false} MeaningsJoin(a: seq<Packet>, b: seq<Packet>, t: byte)
    requires forall p :: p in a ==> p.Publication?
    ensures Meanings(a + b, 0, t) == Meanings(a, 0, t) + Meanings(b, 0, t)
  {
    hide Meaning;
    if a == [] {
      assert a + b == b;
    } else {
      hide Meanings, SubsAfter;
      MeaningsJoin(a[1..], b, t);
      assert a[0] in a;
      JoinHead(a, b);
      MeaningsFirst(a, t);
      MeaningsFirst(a + b, t);
      JoinAssoc(Meaning(a[0], 0, t), Meanings(a[1..], 0, t), Meanings(b, 0, t));
    }
  }

  lemma MeaningsFirst(ps: seq<Packet>, t: byte)
    requires ps != [] && ps[0].Publication?
    ensures Meanings(ps, 0, t) == Meaning(ps[0], 0, t) + Meanings(ps[1..], 0, t)
  {
  }

  /** The frames a client has been sent are a stream of packets that mean what was published. */
  lemma {:induction false} FramesAsPackets(h: seq<Publication>, sock: int, t: byte) returns (ps: seq<Packet>)
    requires HistoryOk(h) && AllFit(h, sock)
    ensures Acceptable(ps) && forall p :: p in ps ==> p.Publication?
    ensures EncodeAll(ps) == FrameBytes(h, sock) && Meanings(ps, 0, t) == Published(h, sock)
    decreases |h|
  {
    hide PublishFrame, Selected, Encode, Meaning;
    ps := [];
    if h != [] {
      var before, p := h[..|h| - 1], h[|h| - 1];
      ps := FramesAsPackets(before, sock, t);
      if Selected(p.table, p.topic, sock) {
        var one := OnePacket(p, t);
        EncodeAllJoin(ps, [one]);
        MeaningsJoin(ps, [one], t);
        ps := ps + [one];
      }
    }
  }

  lemma OnePacket(p: Publication, t: byte) returns (one: Packet)
    requires PubOk(p) && |p.topic| < MAX_TOPIC_LEN && |p.payload| < JSON_BUF_SIZE
    ensures one.Publication? && Acceptable([one])
    ensures EncodeAll([one]) == PublishFrame(p.topic, p.payload, p.qos, p.pktId)
    ensures Meanings([one], 0, t) == [Publish(p.topic, p.payload)]
  {
    hide PublishFrame, Encode, CStr;
    one := AsPacket(p.topic, p.payload, p.qos, p.pktId);
    FrameIsPacket(p.topic, p.payload, p.qos, p.pktId);
    CStrOfNulFree(p.topic);
    CStrOfNulFree(p.payload);
    assert [one][1..] == [];
    assert EncodeAll([one]) == Encode(one) + [];
    assert Meanings([one], 0, t) == Meaning(one, 0, t) + [];
  }

  /** In every run, whenever nobody is publishing: the PUBLISH bytes a client has been sent are read by the
      packet loop as exactly the topics and payloads of the publications that selected it, in the order in
      which the publishers got the mutex, if those fit its buffers. */
  lemma ReadBackInEveryRun(steps: seq<Step>, sock: int, t: byte)
    requires Exec(steps).Some? && !Active(Exec(steps).value) && SubscribeType(t)
    ensures HistoryOk(Exec(steps).value.history)
    ensures var s := Exec(steps).value;
            AllFit(s.history, sock) ==>
              Handle(Concat(Pieces(Stream(s, sock))), 0, t) == Handled(Published(s.history, sock), [])
  {
    hide Exec, Handle, Pieces;
    FanOutInEveryRun(steps, sock);
    var s := Exec(steps).value;
    if AllFit(s.history, sock) {
      var ps := FramesAsPackets(s.history, sock, t);
      SessionExact(ps, [], t);
    }
  }

  // A handler and its bytes.

  /** What task `tid` has asked of the broker since it was last spawned, in the terms of the packet loop. */
  function Asked(steps: seq<Step>, tid: nat): seq<Action>
    decreases |steps|
  {
    if steps == [] then [] else AskedAfter(Asked(steps[..|steps| - 1], tid), steps[|steps| - 1], tid)
  }

  function AskedAfter(before: seq<Action>, step: Step, tid: nat): seq<Action> {
    match step
    case Spawn(i) => if i == tid then [] else before
    case SetId(i, id) => if i == tid then before + [SetClientId(id)] else before
    case SendReply(i, bytes) => if i == tid then before + [Reply(bytes)] else before
    case SubscribeOne(i, filter) => if i == tid then before + [AddFilter(filter)] else before
    case PublishBegin(i, topic, payload, _) => if i == tid then before + [Publish(topic, payload)] else before
    case _ => before
  }

  /** What a handler has asked for is a beginning of what the packet loop makes of some bytes. */
  ghost predicate Follows(acts: seq<Action>, t: byte) {
    exists bytes :: acts <= Handle(bytes, 0, t).acts
  }

  /** Every handler follows the packet loop at every point of the run. */
  ghost predicate HandlersFollow(steps: seq<Step>, t: byte) {
    forall n, tid: nat :: 0 <= n <= |steps| && Exec(steps[..n]).Some?
      && tid in Exec(steps[..n]).value.tasks && Exec(steps[..n]).value.tasks[tid].Handler?
      ==> Follows(Asked(steps[..n], tid), t)
  }

  lemma {:induction false} ExecPrefix(steps: seq<Step>, n: nat)
    requires Exec(steps).Some? && n <= |steps|
    ensures Exec(steps[..n]).Some?
    decreases |steps|
  {
    hide Do, Enabled;
    if n < |steps| {
      var init := steps[..|steps| - 1];
      ExecPrefix(init, n);
      assert init[..n] == steps[..n];
    } else {
      assert steps[..n] == steps;
    }
  }

  lemma NoFilterAsked(acts: seq<Action>, i: nat)
    requires Follows(acts, SUBSCRIBE_AS_WRITTEN) && i < |acts|
    ensures !acts[i].AddFilter?
  {
    hide Handle;
    var bytes :| acts <= Handle(bytes, 0, SUBSCRIBE_AS_WRITTEN).acts;
    NeverSubscribesAsWritten(bytes, 0);
    assert acts[i] == Handle(bytes, 0, SUBSCRIBE_AS_WRITTEN).acts[i];
  }

  /** A step of the filter loop is one of a handler, which remains one. */
  lemma SubscriberIsHandler(s: State, step: Step)
    requires WellTyped(s) && Enabled(s, step) && step.SubscribeOne?
    ensures step.tid in Do(s, step).tasks && Do(s, step).tasks[step.tid].Handler?
  {
    hide StrNCpy, TableOk;
  }

  lemma ExecLast(steps: seq<Step>)
    requires steps != [] && Exec(steps).Some?
    ensures var before := Exec(steps[..|steps| - 1]);
            && before.Some? && WellTyped(before.value) && Enabled(before.value, steps[|steps| - 1])
            && Exec(steps).value == Do(before.value, steps[|steps| - 1])
  {
    hide Do, Enabled;
  }

  lemma AsksForFilter(steps: seq<Step>)
    requires steps != [] && steps[|steps| - 1].SubscribeOne?
    ensures var acts := Asked(steps, steps[|steps| - 1].tid);
            acts != [] && acts[|acts| - 1].AddFilter?
  {
  }

  /** The last step of a run is not one of the filter loop. */
  lemma LastIsNoFilter(steps: seq<Step>)
    requires steps != [] && Exec(steps).Some? && HandlersFollow(steps, SUBSCRIBE_AS_WRITTEN)
    ensures !steps[|steps| - 1].SubscribeOne?
  {
    hide Exec, Asked, Follows, Do, Enabled;
    var step := steps[|steps| - 1];
    if step.SubscribeOne? {
      ExecLast(steps);
      SubscriberIsHandler(Exec(steps[..|steps| - 1]).value, step);
      AsksForFilter(steps);
      assert steps[..|steps|] == steps;
      var acts := Asked(steps, step.tid);
      NoFilterAsked(acts, |acts| - 1);
    }
  }

  lemma FollowPrefix(steps: seq<Step>, n: nat, t: byte)
    requires HandlersFollow(steps, t) && n <= |steps|
    ensures HandlersFollow(steps[..n], t)
  {
    hide Exec, Asked, Follows;
    var run := steps[..n];
    forall k, tid: nat | 0 <= k <= |run| && Exec(run[..k]).Some?
      && tid in Exec(run[..k]).value.tasks && Exec(run[..k]).value.tasks[tid].Handler?
      ensures Follows(Asked(run[..k], tid), t)
    {
      assert run[..k] == steps[..k];
    }
  }

  /** In every run in which the handlers follow the packet loop as written, on whatever bytes: no filter is
      ever stored, and no client ever receives a byte of a PUBLISH. */
  lemma NothingDeliveredToFollowers(steps: seq<Step>, sock: int)
    requires Exec(steps).Some? && HandlersFollow(steps, SUBSCRIBE_AS_WRITTEN)
    ensures forall i :: 0 <= i < |steps| ==> !steps[i].SubscribeOne?
    ensures Concat(Pieces(Stream(Exec(steps).value, sock))) == []
  {
    hide Exec, Pieces, HandlersFollow;
    forall i | 0 <= i < |steps| ensures !steps[i].SubscribeOne? {
      ExecPrefix(steps, i + 1);
      FollowPrefix(steps, i + 1, SUBSCRIBE_AS_WRITTEN);
      LastIsNoFilter(steps[..i + 1]);
      assert steps[..i + 1][i] == steps[i];
    }
    NothingDeliveredAsWritten(steps, sock);
  }
}
