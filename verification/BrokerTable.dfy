/** The broker's client table and the operations on it that run under its mutex. */
module BrokerTable {
  import opened Bytes
  import opened RemainingLength
  import opened PacketHandler
  import opened TopicMatch

  const MQTT_MAX_CLIENTS := 2

  /** One entry: texts are kept in fixed buffers, as C strings. */
  datatype Slot = Slot(sock: int, clientId: seq<byte>, subs: seq<seq<byte>>, subCount: nat, active: bool)

  /** Every buffer has its size and ends in a NUL that nothing overwrites. */
  predicate SlotOk(s: Slot) {
    && |s.clientId| == CLIENT_ID_LEN && s.clientId[CLIENT_ID_LEN - 1] == 0
    && |s.subs| == MAX_SUBS_PER_CLIENT
    && (forall k :: 0 <= k < |s.subs| ==> |s.subs[k]| == MAX_TOPIC_LEN && s.subs[k][MAX_TOPIC_LEN - 1] == 0)
    && s.subCount <= MAX_SUBS_PER_CLIENT
  }

  predicate TableOk(t: seq<Slot>) {
    |t| == MQTT_MAX_CLIENTS && forall i :: 0 <= i < |t| ==> SlotOk(t[i])
  }

  function CountActive(t: seq<Slot>): (n: nat)
    ensures n <= |t|
  {
    if t == [] then 0 else (if t[0].active then 1 else 0) + CountActive(t[1..])
  }

  /** An entry as static storage starts: all zero. */
  function EmptySlot(): (s: Slot)
    ensures SlotOk(s) && !s.active
  {
    Slot(0, Zeros(CLIENT_ID_LEN), seq(MAX_SUBS_PER_CLIENT, i => Zeros(MAX_TOPIC_LEN)), 0, false)
  }

  /** The filters a client holds. */
  function Filters(s: Slot): set<seq<byte>>
    requires SlotOk(s)
  {
    set k | 0 <= k < s.subCount :: CStr(s.subs[k])
  }

  predicate Holds(s: Slot, filter: seq<byte>)
    requires SlotOk(s)
  {
    filter in Filters(s)
  }

  /** What the inner loop of broker_publish finds. */
  predicate Wants(s: Slot, topic: seq<byte>)
    requires SlotOk(s)
  {
    s.active && exists k :: 0 <= k < s.subCount && TopicMatches(CStr(s.subs[k]), topic)
  }

  // What each operation makes of a slot.

  function Filled(s: Slot, sock: int): Slot {
    s.(sock := sock, active := true, subCount := 0)
  }

  function Freed(s: Slot): Slot {
    s.(sock := -1, active := false, subCount := 0)
  }

  function Named(s: Slot, id: seq<byte>): Slot
    requires SlotOk(s)
  {
    s.(clientId := StrNCpy(s.clientId, id, CLIENT_ID_LEN - 1))
  }

  function Subscribed(s: Slot, filter: seq<byte>): Slot
    requires SlotOk(s) && s.subCount < MAX_SUBS_PER_CLIENT
  {
    s.(subs := s.subs[s.subCount := StrNCpy(s.subs[s.subCount], filter, MAX_TOPIC_LEN - 1)],
       subCount := s.subCount + 1)
  }

  lemma SlotsStayOk(s: Slot, sock: int, text: seq<byte>)
    requires SlotOk(s)
    ensures SlotOk(Filled(s, sock)) && SlotOk(Freed(s)) && SlotOk(Named(s, text))
    ensures s.subCount < MAX_SUBS_PER_CLIENT ==> SlotOk(Subscribed(s, text))
  {
    var id := StrNCpy(s.clientId, text, CLIENT_ID_LEN - 1);
    assert id[CLIENT_ID_LEN - 1] == id[CLIENT_ID_LEN - 1..][0];
    if s.subCount < MAX_SUBS_PER_CLIENT {
      var f := StrNCpy(s.subs[s.subCount], text, MAX_TOPIC_LEN - 1);
      assert f[MAX_TOPIC_LEN - 1] == f[MAX_TOPIC_LEN - 1..][0];
    }
  }

  /** A filter as its buffer of 64 bytes keeps it. */
  function Kept(filter: seq<byte>): seq<byte> {
    var f := CStr(filter);
    if |f| < 64 then f else f[..63]
  }

  /** A filter joins those held before, which all stay; a client that has just come holds none. */
  lemma SubscribedFilters(s: Slot, filter: seq<byte>, sock: int)
    requires SlotOk(s)
    ensures SlotOk(Filled(s, sock)) && Filters(Filled(s, sock)) == {} && Filled(s, sock).active && Filled(s, sock).sock == sock
    ensures s.subCount < MAX_SUBS_PER_CLIENT ==>
              SlotOk(Subscribed(s, filter)) && Filters(Subscribed(s, filter)) == Filters(s) + {Kept(filter)}
  {
    SlotsStayOk(s, sock, filter);
    if s.subCount < MAX_SUBS_PER_CLIENT {
      var s' := Subscribed(s, filter);
      assert CStr(s'.subs[s.subCount]) == Kept(filter);
      assert forall k :: 0 <= k < s.subCount ==> s'.subs[k] == s.subs[k];
      forall f | f in Filters(s) ensures f in Filters(s') {
        var k :| 0 <= k < s.subCount && CStr(s.subs[k]) == f;
        assert CStr(s'.subs[k]) == f;
      }
    }
  }

  /** So a filter of fewer than 64 bytes is held as it is. */
  lemma SubscribedHolds(s: Slot, filter: seq<byte>, other: seq<byte>)
    requires SlotOk(s) && s.subCount < MAX_SUBS_PER_CLIENT && 0 !in filter && |filter| < 64
    ensures SlotOk(Subscribed(s, filter))
    ensures Holds(Subscribed(s, filter), other) <==> other == filter || Holds(s, other)
  {
    hide Filters, Subscribed;
    SubscribedFilters(s, filter, 0);
    CStrOfNulFree(filter);
  }

  /** The loop finds a match exactly for an active client that holds a filter which matches the topic. */
  lemma WantsExactly(s: Slot, topic: seq<byte>)
    requires SlotOk(s)
    ensures Wants(s, topic) <==> s.active && exists f :: f in Filters(s) && TopicMatches(f, topic)
  {
    if Wants(s, topic) {
      var k :| 0 <= k < s.subCount && TopicMatches(CStr(s.subs[k]), topic);
      assert CStr(s.subs[k]) in Filters(s);
    }
  }

  /** A stored filter counts from then on, with those stored before it; without a filter nothing is wanted. */
  lemma WantsMore(s: Slot, filter: seq<byte>, topic: seq<byte>, sock: int)
    requires SlotOk(s) && s.active && s.subCount < MAX_SUBS_PER_CLIENT
    ensures SlotOk(Subscribed(s, filter)) && SlotOk(Filled(s, sock)) && SlotOk(Freed(s))
    ensures Wants(Subscribed(s, filter), topic) <==> Wants(s, topic) || TopicMatches(Kept(filter), topic)
    ensures !Wants(Filled(s, sock), topic) && !Wants(Freed(s), topic)
  {
    hide TopicMatches, Kept;
    SlotsStayOk(s, sock, filter);
    SubscribedFilters(s, filter, sock);
    WantsExactly(s, topic);
    WantsExactly(Subscribed(s, filter), topic);
    assert Kept(filter) in Filters(Subscribed(s, filter));
  }

  /** A client identifier as its buffer of 32 bytes keeps it; nothing else of the entry changes. */
  lemma NamedKeeps(s: Slot, id: seq<byte>)
    requires SlotOk(s)
    ensures var n, c := Named(s, id), CStr(id);
            && CStr(n.clientId) == (if |c| < 32 then c else c[..31])
            && n.sock == s.sock && n.active == s.active && n.subs == s.subs && n.subCount == s.subCount
  {
  }

  lemma {:induction false} CountUpdate(t: seq<Slot>, i: nat, s: Slot)
    requires i < |t|
    ensures CountActive(t[i := s])
            == CountActive(t) + (if s.active then 1 else 0) - (if t[i].active then 1 else 0)
  {
    if i == 0 {
      assert t[i := s][1..] == t[1..];
    } else {
      CountUpdate(t[1..], i - 1, s);
      assert t[i := s][1..] == t[1..][i - 1 := s];
    }
  }

  // PUBLISH frames.

  /** The length announced in the fixed header. */
  function PublishLen(topic: seq<byte>, payload: seq<byte>, qos: nat): nat {
    2 + |topic| + (if qos > 0 then 2 else 0) + |payload|
  }

  /** The chunks of one PUBLISH, each one `send`; the length field of the topic keeps 16 bits. */
  function PublishChunks(topic: seq<byte>, payload: seq<byte>, qos: nat, pktId: nat): (cs: seq<seq<byte>>)
    requires qos <= 2 && pktId < 0x1_0000
    ensures |cs| == if qos > 0 then 6 else 5
  {
    [[MQTT_PUBLISH + qos * 2], EncodeLen(PublishLen(topic, payload, qos)),
     [|topic| / 256 % 256, |topic| % 256], topic]
    + (if qos > 0 then [[pktId / 256, pktId % 256]] else []) + [payload]
  }

  function Concat(cs: seq<seq<byte>>): seq<byte> {
    if cs == [] then [] else cs[0] + Concat(cs[1..])
  }

  function PublishFrame(topic: seq<byte>, payload: seq<byte>, qos: nat, pktId: nat): seq<byte>
    requires qos <= 2 && pktId < 0x1_0000
  {
    Concat(PublishChunks(topic, payload, qos, pktId))
  }

  lemma FrameParts(topic: seq<byte>, payload: seq<byte>, qos: nat, pktId: nat)
    requires qos <= 2 && pktId < 0x1_0000
    ensures PublishFrame(topic, payload, qos, pktId)
            == [MQTT_PUBLISH + qos * 2] + EncodeLen(PublishLen(topic, payload, qos))
               + ([|topic| / 256 % 256, |topic| % 256] + topic
                  + (if qos > 0 then [pktId / 256, pktId % 256] else []) + payload)
  {
    hide EncodeLen;
    var cs := PublishChunks(topic, payload, qos, pktId);
    var hdr: seq<byte> := [|topic| / 256 % 256, |topic| % 256];
    var id: seq<byte> := if qos > 0 then [pktId / 256, pktId % 256] else [];
    assert Concat(cs[4..]) == id + payload by {
      assert Concat([payload]) == payload by { assert [payload][1..] == []; }
      if qos > 0 {
        assert cs[4..][1..] == cs[5..] == [payload];
      } else {
        assert cs[4..] == [payload];
      }
    }
    assert cs[3..][1..] == cs[4..] && cs[2..][1..] == cs[3..] && cs[1..][1..] == cs[2..];
    assert Concat(cs[2..]) == hdr + (topic + (id + payload));
    assert hdr + (topic + (id + payload)) == hdr + topic + id + payload;
    assert Concat(cs) == cs[0] + Concat(cs[1..]);
    assert Concat(cs[1..]) == cs[1] + Concat(cs[2..]);
    assert cs[0] + (cs[1] + Concat(cs[2..])) == cs[0] + cs[1] + Concat(cs[2..]);
  }

  // Delivery.

  /** Bytes sent so far, by socket. */
  type Output = map<int, seq<byte>>

  function Sent(out: Output, sock: int): seq<byte> {
    if sock in out then out[sock] else []
  }

  function Send(out: Output, sock: int, bytes: seq<byte>): Output {
    out[sock := Sent(out, sock) + bytes]
  }

  function SendAll(out: Output, sock: int, cs: seq<seq<byte>>): Output
    decreases |cs|
  {
    if cs == [] then out else SendAll(Send(out, sock, cs[0]), sock, cs[1..])
  }

  /** The frame goes to every slot that wants the topic, in table order. */
  function Deliver(out: Output, t: seq<Slot>, topic: seq<byte>, cs: seq<seq<byte>>): Output
    requires forall i :: 0 <= i < |t| ==> SlotOk(t[i])
    decreases |t|
  {
    if t == [] then out
    else
      var out' := Deliver(out, t[..|t| - 1], topic, cs);
      var s := t[|t| - 1];
      if Wants(s, topic) then SendAll(out', s.sock, cs) else out'
  }

  predicate DistinctSockets(t: seq<Slot>) {
    forall i, j :: 0 <= i < j < |t| && t[i].active && t[j].active ==> t[i].sock != t[j].sock
  }

  /** An active client on the socket holds a filter that matches the topic. */
  predicate Selected(t: seq<Slot>, topic: seq<byte>, sock: int)
    requires forall i :: 0 <= i < |t| ==> SlotOk(t[i])
  {
    exists i :: 0 <= i < |t| && t[i].active && t[i].sock == sock && exists f :: f in Filters(t[i]) && TopicMatches(f, topic)
  }

  lemma SelectedByWants(t: seq<Slot>, topic: seq<byte>, sock: int)
    requires forall i :: 0 <= i < |t| ==> SlotOk(t[i])
    ensures Selected(t, topic, sock) <==> exists i :: 0 <= i < |t| && t[i].sock == sock && Wants(t[i], topic)
  {
    hide Wants, Filters, TopicMatches, SlotOk;
    forall i | 0 <= i < |t|
      ensures Wants(t[i], topic) <==> t[i].active && exists f :: f in Filters(t[i]) && TopicMatches(f, topic)
    {
      WantsExactly(t[i], topic);
    }
  }

  lemma {:induction false} SendAllSent(out: Output, sock: int, cs: seq<seq<byte>>, other: int)
    ensures Sent(SendAll(out, sock, cs), other) == if other == sock then Sent(out, other) + Concat(cs) else Sent(out, other)
    decreases |cs|
  {
    if cs != [] {
      SendAllSent(Send(out, sock, cs[0]), sock, cs[1..], other);
      assert Sent(out, sock) + cs[0] + Concat(cs[1..]) == Sent(out, sock) + (cs[0] + Concat(cs[1..]));
    }
  }

  lemma SelectedLast(t: seq<Slot>, topic: seq<byte>, sock: int)
    requires t != [] && forall i :: 0 <= i < |t| ==> SlotOk(t[i])
    ensures var s := t[|t| - 1];
            Selected(t, topic, sock) <==> Selected(t[..|t| - 1], topic, sock) || (s.sock == sock && Wants(s, topic))
  {
    hide Wants, SlotOk, Selected;
    var t', s := t[..|t| - 1], t[|t| - 1];
    SelectedByWants(t, topic, sock);
    SelectedByWants(t', topic, sock);
    if Selected(t, topic, sock) && !(s.sock == sock && Wants(s, topic)) {
      var i :| 0 <= i < |t| && t[i].sock == sock && Wants(t[i], topic);
      assert t'[i] == t[i];
    }
    if Selected(t', topic, sock) {
      var i :| 0 <= i < |t'| && t'[i].sock == sock && Wants(t'[i], topic);
      assert t[i] == t'[i];
    }
    if s.sock == sock && Wants(s, topic) {
      assert t[|t| - 1].sock == sock;
    }
  }

  lemma SelectedSocket(t: seq<Slot>, topic: seq<byte>, sock: int) returns (i: nat)
    requires (forall j :: 0 <= j < |t| ==> SlotOk(t[j])) && Selected(t, topic, sock)
    ensures i < |t| && t[i].active && t[i].sock == sock
  {
    i :| 0 <= i < |t| && t[i].active && t[i].sock == sock && exists f :: f in Filters(t[i]) && TopicMatches(f, topic);
  }

  /** Exactly once to every active client with a matching filter, and to no one else. */
  lemma {:induction false} DeliverOnce(out: Output, t: seq<Slot>, topic: seq<byte>, cs: seq<seq<byte>>, sock: int)
    requires forall i :: 0 <= i < |t| ==> SlotOk(t[i])
    requires DistinctSockets(t)
    ensures Sent(Deliver(out, t, topic, cs), sock)
            == Sent(out, sock) + (if Selected(t, topic, sock) then Concat(cs) else [])
    decreases |t|
  {
    hide Wants, SlotOk, SendAll, Concat, Selected, Sent;
    if t == [] {
      assert !Selected(t, topic, sock) by { if Selected(t, topic, sock) { var _ := SelectedSocket(t, topic, sock); } }
      assert Sent(out, sock) + [] == Sent(out, sock);
    } else {
      var t', s := t[..|t| - 1], t[|t| - 1];
      DeliverOnce(out, t', topic, cs, sock);
      SendAllSent(Deliver(out, t', topic, cs), s.sock, cs, sock);
      SelectedLast(t, topic, sock);
      assert s.active <== Wants(s, topic) by { WantsActive(s, topic); }
      if Selected(t', topic, sock) {
        var i := SelectedSocket(t', topic, sock);
        assert t[i] == t'[i];
      }
      assert Sent(out, sock) + [] == Sent(out, sock);
    }
  }

  lemma WantsActive(s: Slot, topic: seq<byte>)
    requires SlotOk(s)
    ensures Wants(s, topic) ==> s.active
  {
  }

  // The table itself.

  class Broker {
    var slots: array<Slot>
    var clientCount: nat
    var pktId: nat
    var out: Output
    var closed: set<int>

    ghost predicate Valid()
      reads this, slots
    {
      && TableOk(slots[..])
      && clientCount == CountActive(slots[..])
      && pktId < 0x1_0000
      && DistinctSockets(slots[..])
    }

    constructor ()
      ensures Valid() && fresh(slots)
      ensures clientCount == 0 && pktId == 1 && out == map[] && closed == {}
      ensures forall i :: 0 <= i < slots.Length ==> !slots[i].active
    {
      var empty := EmptySlot();
      slots := new Slot[MQTT_MAX_CLIENTS](i => empty);
      clientCount, pktId, out, closed := 0, 1, map[], {};
      new;
      assert slots[..] == [empty, empty];
      assert CountActive([empty, empty]) == 0 by {
        assert [empty, empty][1..] == [empty];
      }
    }

    /** broker_alloc_client: the first free entry. */
    method AllocClient() returns (idx: int)
      requires Valid()
      ensures -1 <= idx < slots.Length
      ensures idx == -1 <==> clientCount == MQTT_MAX_CLIENTS
      ensures idx >= 0 ==> !slots[idx].active && forall j :: 0 <= j < idx ==> slots[j].active
    {
      var i := 0;
      while i < slots.Length
        invariant 0 <= i <= slots.Length
        invariant forall j :: 0 <= j < i ==> slots[j].active
      {
        if !slots[i].active {
          CountFull(slots[..]);
          return i;
        }
        i := i + 1;
      }
      CountFull(slots[..]);
      idx := -1;
    }

    /** The locked part of accepting a connection on `cs`. */
    method Accept(cs: int) returns (idx: int)
      requires Valid()
      requires forall i :: 0 <= i < slots.Length && slots[i].active ==> slots[i].sock != cs
      modifies this, slots
      ensures Valid() && slots == old(slots) && pktId == old(pktId) && out == old(out)
      ensures old(clientCount) == MQTT_MAX_CLIENTS ==>
                idx == -1 && slots[..] == old(slots[..]) && clientCount == old(clientCount) && closed == old(closed) + {cs}
      ensures old(clientCount) < MQTT_MAX_CLIENTS ==>
                && 0 <= idx < slots.Length && !old(slots[idx].active)
                && slots[..] == old(slots[..])[idx := Filled(old(slots[idx]), cs)]
                && clientCount == old(clientCount) + 1 && closed == old(closed)
    {
      idx := AllocClient();
      if idx < 0 {
        closed := closed + {cs};
        return;
      }
      SlotsStayOk(slots[idx], cs, []);
      CountUpdate(slots[..], idx, Filled(slots[idx], cs));
      slots[idx] := Filled(slots[idx], cs);
      clientCount := clientCount + 1;
      assert slots[..] == old(slots[..])[idx := Filled(old(slots[idx]), cs)];
    }

    /** broker_free_client. */
    method FreeClient(idx: int)
      requires Valid()
      modifies this, slots
      ensures Valid() && slots == old(slots) && pktId == old(pktId) && out == old(out)
      ensures var hit := 0 <= idx < slots.Length && old(slots[idx].active);
              && slots[..] == (if hit then old(slots[..])[idx := Freed(old(slots[idx]))] else old(slots[..]))
              && clientCount == old(clientCount) - (if hit then 1 else 0)
              && closed == old(closed) + (if hit then {old(slots[idx].sock)} else {})
    {
      if idx < 0 || idx >= MQTT_MAX_CLIENTS {
        return;
      }
      if slots[idx].active {
        SlotsStayOk(slots[idx], 0, []);
        CountUpdate(slots[..], idx, Freed(slots[idx]));
        CountPositive(slots[..], idx);
        closed := closed + {slots[idx].sock};
        slots[idx] := Freed(slots[idx]);
        if clientCount > 0 {
          clientCount := clientCount - 1;
        }
        assert slots[..] == old(slots[..])[idx := Freed(old(slots[idx]))];
      } else {
        assert slots[..] == old(slots[..]);
      }
    }

    /** The locked part of the CONNECT arm. */
    method SetClientId(idx: nat, id: seq<byte>)
      requires Valid() && idx < slots.Length
      modifies slots
      ensures Valid()
      ensures slots[..] == old(slots[..])[idx := Named(old(slots[idx]), id)]
    {
      SlotsStayOk(slots[idx], 0, id);
      CountUpdate(slots[..], idx, Named(slots[idx], id));
      slots[idx] := Named(slots[idx], id);
      assert slots[..] == old(slots[..])[idx := Named(old(slots[idx]), id)];
    }

    /** One turn of the filter loop of the SUBSCRIBE arm, which runs under the mutex. */
    method AddFilter(idx: nat, filter: seq<byte>)
      requires Valid() && idx < slots.Length && slots[idx].subCount < MAX_SUBS_PER_CLIENT
      modifies slots
      ensures Valid()
      ensures slots[..] == old(slots[..])[idx := Subscribed(old(slots[idx]), filter)]
    {
      SlotsStayOk(slots[idx], 0, filter);
      CountUpdate(slots[..], idx, Subscribed(slots[idx], filter));
      slots[idx] := Subscribed(slots[idx], filter);
      assert slots[..] == old(slots[..])[idx := Subscribed(old(slots[idx]), filter)];
    }

    /** The inner loop of broker_publish. */
    method Matches(idx: nat, topic: seq<byte>) returns (matched: bool)
      requires Valid() && idx < slots.Length && slots[idx].active
      ensures matched == Wants(slots[idx], topic)
    {
      var s := slots[idx];
      matched := false;
      var j := 0;
      while j < s.subCount && !matched
        invariant 0 <= j <= s.subCount
        invariant matched ==> exists k :: 0 <= k < s.subCount && TopicMatches(CStr(s.subs[k]), topic)
        invariant !matched ==> forall k :: 0 <= k < j ==> !TopicMatches(CStr(s.subs[k]), topic)
      {
        if TopicMatches(CStr(s.subs[j]), topic) {
          matched := true;
        }
        j := j + 1;
      }
    }

    /** The sends to one client; `remLen` is the encoded remaining length. */
    method SendFrame(sock: int, remLen: seq<byte>, topic: seq<byte>, payload: seq<byte>, qos: nat)
      requires qos <= 2 && pktId < 0x1_0000 && remLen == EncodeLen(PublishLen(topic, payload, qos))
      modifies this`out
      ensures out == SendAll(old(out), sock, PublishChunks(topic, payload, qos, pktId))
    {
      hide Send, EncodeLen;
      SendChunks(out, sock, topic, payload, qos, pktId);
      out := Send(out, sock, [MQTT_PUBLISH + qos * 2]);
      out := Send(out, sock, remLen);
      out := Send(out, sock, [|topic| / 256 % 256, |topic| % 256]);
      out := Send(out, sock, topic);
      if qos > 0 {
        out := Send(out, sock, [pktId / 256, pktId % 256]);
      }
      out := Send(out, sock, payload);
    }

    /** broker_publish, with the mutex held throughout. */
    method Publish(topic: seq<byte>, payload: seq<byte>, qos: nat)
      requires Valid() && qos <= 2
      requires 0 !in topic && 0 !in payload && PublishLen(topic, payload, qos) < MAX_ENCODABLE
      modifies this
      ensures Valid() && slots == old(slots) && slots[..] == old(slots[..])
      ensures clientCount == old(clientCount) && closed == old(closed)
      ensures forall sock :: Sent(out, sock) == Sent(old(out), sock)
                + (if Selected(slots[..], topic, sock) then PublishFrame(topic, payload, qos, old(pktId)) else [])
      ensures pktId == if qos > 0 then (old(pktId) + 1) % 0x1_0000 else old(pktId)
    {
      hide SendAll, PublishChunks, EncodeLen, TopicMatches, CStr, PublishLen;
      ghost var cs := PublishChunks(topic, payload, qos, pktId);
      var remEnc := new byte[4];
      var rem := PublishLen(topic, payload, qos);
      EncodeLenSize(rem);
      var remBytes := EncodeRemainingLen(rem, remEnc, 0);
      var i := 0;
      while i < slots.Length
        invariant 0 <= i <= slots.Length
        invariant Valid() && pktId == old(pktId) && slots == old(slots) && slots[..] == old(slots[..])
        invariant clientCount == old(clientCount) && closed == old(closed)
        invariant remEnc[..remBytes] == EncodeLen(rem)
        invariant out == Deliver(old(out), slots[..i], topic, cs)
      {
        var matched := false;
        if slots[i].active {
          matched := Matches(i, topic);
        }
        assert slots[..i + 1][..i] == slots[..i];
        if matched {
          var sock := slots[i].sock;
          SendFrame(sock, remEnc[..remBytes], topic, payload, qos);
        }
        i := i + 1;
      }
      assert slots[..i] == slots[..];
      if qos > 0 {
        pktId := (pktId + 1) % 0x1_0000;
      }
      forall sock ensures Sent(out, sock) == Sent(old(out), sock)
                + (if Selected(slots[..], topic, sock) then PublishFrame(topic, payload, qos, old(pktId)) else [])
      {
        DeliverOnce(old(out), slots[..], topic, cs, sock);
      }
    }
  }

  lemma {:induction false} CountFull(t: seq<Slot>)
    ensures CountActive(t) == |t| <==> forall i :: 0 <= i < |t| ==> t[i].active
  {
    if t != [] {
      CountFull(t[1..]);
      assert forall i :: 0 < i < |t| ==> t[i] == t[1..][i - 1];
    }
  }

  lemma {:induction false} CountPositive(t: seq<Slot>, i: nat)
    requires i < |t| && t[i].active
    ensures CountActive(t) > 0
  {
    if i > 0 {
      CountPositive(t[1..], i - 1);
    }
  }

  /** The sends of one frame, one after the other. */
  lemma SendChunks(out: Output, sock: int, topic: seq<byte>, payload: seq<byte>, qos: nat, pktId: nat)
    requires qos <= 2 && pktId < 0x1_0000
    ensures var o1 := Send(out, sock, [MQTT_PUBLISH + qos * 2]);
            var o2 := Send(o1, sock, EncodeLen(PublishLen(topic, payload, qos)));
            var o3 := Send(o2, sock, [|topic| / 256 % 256, |topic| % 256]);
            var o4 := Send(o3, sock, topic);
            var o5 := if qos > 0 then Send(o4, sock, [pktId / 256, pktId % 256]) else o4;
            SendAll(out, sock, PublishChunks(topic, payload, qos, pktId)) == Send(o5, sock, payload)
  {
    hide Send, EncodeLen;
    var cs := PublishChunks(topic, payload, qos, pktId);
    var o1 := Send(out, sock, cs[0]);
    var o2 := Send(o1, sock, cs[1]);
    var o3 := Send(o2, sock, cs[2]);
    var o4 := Send(o3, sock, cs[3]);
    assert cs[1..][1..] == cs[2..] && cs[2..][1..] == cs[3..] && cs[3..][1..] == cs[4..];
    assert SendAll(out, sock, cs) == SendAll(o1, sock, cs[1..]) == SendAll(o2, sock, cs[2..]);
    assert SendAll(o2, sock, cs[2..]) == SendAll(o3, sock, cs[3..]) == SendAll(o4, sock, cs[4..]);
    var o5 := if qos > 0 then Send(o4, sock, cs[4]) else o4;
    assert SendAll(o5, sock, [payload]) == Send(o5, sock, payload) by {
      assert [payload][1..] == [];
    }
    if qos > 0 {
      assert cs[4..][1..] == [payload];
      assert SendAll(o4, sock, cs[4..]) == SendAll(Send(o4, sock, cs[4]), sock, [payload]);
    } else {
      assert cs[4..] == [payload];
    }
  }
}
