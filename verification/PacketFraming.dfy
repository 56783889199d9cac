/** Control packets of MQTT 3.1.1, their bytes, and what the packet loop makes of a stream of them. */
module PacketFraming {
  import opened Bytes
  import opened Socket
  import opened RemainingLength
  import opened PacketHandler

  datatype Subscription = Subscription(filter: seq<byte>, qos: byte)

  /** `flags` is the low nibble of the first byte. `Other` is every type that the loop has no arm for. */
  datatype Packet =
    | Connect(header: seq<byte>, clientId: seq<byte>, body: seq<byte>)
    | Subscribe(id: seq<byte>, topics: seq<Subscription>)
    | Publication(flags: nat, topic: seq<byte>, id: seq<byte>, payload: seq<byte>)
    | PingReq
    | Disconnect
    | Other(first: byte, body: seq<byte>)

  function Qos(flags: nat): nat {
    flags / 2 % 4
  }

  /** A UTF-8 string field (section 1.5.3): two bytes of length, then the bytes. */
  function StringField(s: seq<byte>): seq<byte>
    requires |s| < 0x1_0000
  {
    [|s| / 256, |s| % 256] + s
  }

  predicate TopicsFit(ts: seq<Subscription>) {
    forall t :: t in ts ==> |t.filter| < 0x1_0000
  }

  function TopicFields(ts: seq<Subscription>): (b: seq<byte>)
    requires TopicsFit(ts)
    ensures |b| >= 3 * |ts|
  {
    if ts == [] then [] else StringField(ts[0].filter) + [ts[0].qos] + TopicFields(ts[1..])
  }

  /** Section 3.1 (a 10-byte variable header, then the client identifier first in the payload),
      3.3 (a packet identifier if and only if QoS is 1 or 2) and 3.8 (at least one filter). */
  predicate WellFormed(p: Packet) {
    match p
    case Connect(header, clientId, body) => |header| == 10 && |clientId| < 0x1_0000
    case Subscribe(id, topics) => |id| == 2 && topics != [] && TopicsFit(topics)
    case Publication(flags, topic, id, payload) =>
      flags < 16 && Qos(flags) <= 2 && |topic| < 0x1_0000 && |id| == (if Qos(flags) > 0 then 2 else 0)
    case Other(first, _) =>
      var t := first / 16 * 16;
      && t != MQTT_CONNECT && t != SUBSCRIBE_AS_INTENDED && t != MQTT_PINGREQ
      && t != MQTT_DISCONNECT && t != MQTT_PUBLISH
    case _ => true
  }

  function First(p: Packet): byte
    requires WellFormed(p)
  {
    match p
    case Connect(_, _, _) => MQTT_CONNECT
    case Subscribe(_, _) => 0x82
    case Publication(flags, _, _, _) => MQTT_PUBLISH + flags
    case PingReq => MQTT_PINGREQ
    case Disconnect => MQTT_DISCONNECT
    case Other(first, _) => first
  }

  /** Variable header and payload. */
  function Body(p: Packet): seq<byte>
    requires WellFormed(p)
  {
    match p
    case Connect(header, clientId, body) => header + StringField(clientId) + body
    case Subscribe(id, topics) => id + TopicFields(topics)
    case Publication(_, topic, id, payload) => StringField(topic) + id + payload
    case Other(_, body) => body
    case _ => []
  }

  function Encode(p: Packet): seq<byte>
    requires WellFormed(p)
  {
    [First(p)] + EncodeLen(|Body(p)|) + Body(p)
  }

  /** Within the two limits of this broker: remaining length, and PUBLISH payload. */
  predicate Fits(p: Packet)
    requires WellFormed(p)
  {
    |Body(p)| < MAX_DECODABLE && (p.Publication? ==> |p.payload| < JSON_BUF_SIZE)
  }

  // What each packet means to the broker, read off the packet instead of its bytes.

  /** A text as it comes out of a buffer of `max` bytes. */
  function Stored(text: seq<byte>, max: nat): seq<byte> {
    CStr(if |text| >= max then [] else text)
  }

  function FilterTexts(ts: seq<Subscription>): (fs: seq<seq<byte>>)
    ensures |fs| == |ts|
  {
    seq(|ts|, i requires 0 <= i < |ts| => Stored(ts[i].filter, MAX_TOPIC_LEN))
  }

  function ReturnCodes(ts: seq<Subscription>): (cs: seq<byte>)
    ensures |cs| == |ts|
  {
    seq(|ts|, i requires 0 <= i < |ts| => ts[i].qos % 2)
  }

  /** The topics of a SUBSCRIBE that still find a free slot. */
  function Granted(ts: seq<Subscription>, subs: nat): (g: seq<Subscription>)
    requires subs <= MAX_SUBS_PER_CLIENT
    ensures g <= ts && subs + |g| <= MAX_SUBS_PER_CLIENT
  {
    ts[..Min(|ts|, MAX_SUBS_PER_CLIENT - subs)]
  }

  function Meaning(p: Packet, subs: nat, subscribeType: byte): seq<Action>
    requires subs <= MAX_SUBS_PER_CLIENT
  {
    match p
    case Connect(_, clientId, _) =>
      [SetClientId(Stored(clientId, CLIENT_ID_LEN)), Reply([MQTT_CONNACK, 2, 0, 0])]
    case Subscribe(id, topics) =>
      if subscribeType == SUBSCRIBE_AS_INTENDED then
        var g := Granted(topics, subs);
        AddFilters(FilterTexts(g)) + [Reply([MQTT_SUBACK, 2 + |g|] + id), Reply(ReturnCodes(g))]
      else []
    case Publication(_, topic, _, payload) => [Publish(Stored(topic, MAX_TOPIC_LEN), CStr(payload))]
    case PingReq => [Reply([MQTT_PINGRESP, 0])]
    case _ => []
  }

  function SubsAfter(p: Packet, subs: nat, subscribeType: byte): (n: nat)
    requires subs <= MAX_SUBS_PER_CLIENT
    ensures n <= MAX_SUBS_PER_CLIENT
  {
    if p.Subscribe? && subscribeType == SUBSCRIBE_AS_INTENDED then subs + |Granted(p.topics, subs)| else subs
  }

  lemma ReadStringField(s: seq<byte>, rest: seq<byte>, max: nat)
    requires |s| < 0x1_0000
    ensures ReadStr(StringField(s) + rest, max) == Str(|s|, if |s| >= max then [] else s, rest)
  {
    var f := StringField(s) + rest;
    assert f[0] == |s| / 256 && f[1] == |s| % 256;
    assert f[2..2 + |s|] == s && f[2 + |s|..] == rest;
  }

  /** After the fixed part of the variable header of a CONNECT. */
  lemma AfterHeader(p: Packet, tail: seq<byte>)
    requires p.Connect? && WellFormed(p) && Fits(p)
    ensures ConnectHeader(Body(p) + tail, |Body(p)|)
            == Unread(StringField(p.clientId) + (p.body + tail), 2 + |p.clientId| + |p.body|)
    ensures (p.body + tail)[|p.body|..] == tail && |p.clientId| < 0x1_0000
  {
    hide StringField;
    var s := Body(p) + tail;
    assert |StringField(p.clientId)| == 2 + |p.clientId| by { FieldLength(p.clientId); }
    assert s == p.header + (StringField(p.clientId) + (p.body + tail));
    assert s[7..][3..] == StringField(p.clientId) + (p.body + tail);
  }

  lemma FieldLength(s: seq<byte>)
    requires |s| < 0x1_0000
    ensures |StringField(s)| == 2 + |s|
  {
  }

  lemma ConnectExact(p: Packet, tail: seq<byte>, subs: nat)
    requires p.Connect? && WellFormed(p) && Fits(p)
    ensures ConnectArm(Body(p) + tail, |Body(p)|, subs)
            == Next([SetClientId(Stored(p.clientId, CLIENT_ID_LEN)), Reply([MQTT_CONNACK, 2, 0, 0])], subs, tail)
  {
    hide CStr, Body, ReadStr, StringField, ConnectHeader, WellFormed;
    AfterHeader(p, tail);
    ReadStringField(p.clientId, p.body + tail, CLIENT_ID_LEN);
  }

  /** Taking the first topic: one filter out of the stream, one slot filled. */
  lemma SubLoopTakes(ts: seq<Subscription>, tail: seq<byte>, subs: nat)
    requires ts != [] && subs < MAX_SUBS_PER_CLIENT && TopicsFit(ts) && |TopicFields(ts)| < MAX_DECODABLE
    ensures SubLoop(TopicFields(ts) + tail, |TopicFields(ts)|, subs)
            == Prepend([Stored(ts[0].filter, MAX_TOPIC_LEN)], [ts[0].qos % 2],
                       SubLoop(TopicFields(ts[1..]) + tail, |TopicFields(ts[1..])|, subs + 1))
  {
    hide SubLoop, CStr;
    var s := TopicFields(ts) + tail;
    var more := TopicFields(ts[1..]);
    var rest := [ts[0].qos] + (more + tail);
    assert s == StringField(ts[0].filter) + rest;
    ReadStringField(ts[0].filter, rest, MAX_TOPIC_LEN);
    assert rest[1..] == more + tail;
    var one := ReadStr(s, MAX_TOPIC_LEN);
    SubLoopStep(s, |TopicFields(ts)|, subs, [], [], one);
    var r := SubLoop(s, |TopicFields(ts)|, subs);
    assert Prepend([], [], r) == r;
    assert [] + [CStr(one.text)] == [CStr(one.text)];
    assert [] + [rest[0] % 2] == [ts[0].qos % 2];
  }

  lemma TopicFieldsTail(ts: seq<Subscription>)
    requires ts != [] && TopicsFit(ts)
    ensures |TopicFields(ts[1..])| < |TopicFields(ts)|
  {
  }

  lemma GrantedTakes(ts: seq<Subscription>, subs: nat)
    requires ts != [] && subs < MAX_SUBS_PER_CLIENT
    ensures var g, g1 := Granted(ts, subs), Granted(ts[1..], subs + 1);
            && |g| == 1 + |g1| && ts[|g|..] == ts[1..][|g1|..]
            && FilterTexts(g) == [Stored(ts[0].filter, MAX_TOPIC_LEN)] + FilterTexts(g1)
            && ReturnCodes(g) == [ts[0].qos % 2] + ReturnCodes(g1)
  {
    hide CStr;
    assert Granted(ts, subs) == [ts[0]] + Granted(ts[1..], subs + 1);
  }

  lemma {:induction false} SubLoopExact(ts: seq<Subscription>, tail: seq<byte>, subs: nat)
    requires subs <= MAX_SUBS_PER_CLIENT && TopicsFit(ts) && |TopicFields(ts)| < MAX_DECODABLE
    ensures var g := Granted(ts, subs);
            var unread := TopicFields(ts[|g|..]);
            var r := SubLoop(TopicFields(ts) + tail, |TopicFields(ts)|, subs);
            && r.ok && r.filters == FilterTexts(g) && r.codes == ReturnCodes(g)
            && r.left as int == |unread| && r.rest == unread + tail
    decreases |ts|
  {
    hide SubLoop, TopicFields, Granted, Stored, FilterTexts, ReturnCodes;
    if ts == [] || subs == MAX_SUBS_PER_CLIENT {
      SubLoopStops(ts, tail, subs);
    } else {
      TopicFieldsTail(ts);
      GrantedTakes(ts, subs);
      SubLoopTakes(ts, tail, subs);
      SubLoopExact(ts[1..], tail, subs + 1);
    }
  }

  lemma SubLoopStops(ts: seq<Subscription>, tail: seq<byte>, subs: nat)
    requires subs <= MAX_SUBS_PER_CLIENT && TopicsFit(ts) && |TopicFields(ts)| < MAX_DECODABLE
    requires ts == [] || subs == MAX_SUBS_PER_CLIENT
    ensures Granted(ts, subs) == [] && FilterTexts([]) == [] && ReturnCodes([]) == [] && ts[0..] == ts
    ensures SubLoop(TopicFields(ts) + tail, |TopicFields(ts)|, subs)
            == SubResult(true, [], [], |TopicFields(ts)|, TopicFields(ts) + tail)
  {
    hide SubLoop, CStr;
    SubLoopEnd(TopicFields(ts) + tail, |TopicFields(ts)|, subs);
  }

  lemma {:induction false} SubscribeExact(p: Packet, tail: seq<byte>, subs: nat)
    requires p.Subscribe? && WellFormed(p) && Fits(p) && subs <= MAX_SUBS_PER_CLIENT
    ensures SubscribeArm(Body(p) + tail, |Body(p)|, subs)
            == Next(Meaning(p, subs, SUBSCRIBE_AS_INTENDED), SubsAfter(p, subs, SUBSCRIBE_AS_INTENDED), tail)
  {
    hide SubLoop, CStr, TopicFields;
    var s := Body(p) + tail;
    var g := Granted(p.topics, subs);
    var unread := TopicFields(p.topics[|g|..]);
    SubLoopExact(p.topics, tail, subs);
    assert AfterExact(s, 2) == TopicFields(p.topics) + tail;
    assert (unread + tail)[|unread|..] == tail;
    assert PacketId(s) == p.id;
    assert [MQTT_SUBACK] + EncodeLen(2 + |g|) + p.id == [MQTT_SUBACK, 2 + |g|] + p.id;
  }

  /** After the topic: the packet identifier if there is one, the payload, and the next packet. */
  lemma AfterTopic(p: Packet, tail: seq<byte>)
    requires p.Publication? && WellFormed(p)
    ensures var after := p.id + (p.payload + tail);
            && Body(p) + tail == StringField(p.topic) + after
            && (if Qos(p.flags) > 0 then AfterExact(after, 2) else after) == p.payload + tail
            && (p.payload + tail)[..|p.payload|] == p.payload && (p.payload + tail)[|p.payload|..] == tail
            && First(p) / 2 % 4 == Qos(p.flags)
            && |Body(p)| == 2 + |p.topic| + |p.id| + |p.payload|
            && |p.id| == if Qos(p.flags) > 0 then 2 else 0
  {
  }

  lemma TopicIsField(p: Packet)
    requires p.Publication? && WellFormed(p)
    ensures |p.topic| < 0x1_0000
  {
  }

  lemma {:induction false} PublishExact(p: Packet, tail: seq<byte>, subs: nat)
    requires p.Publication? && WellFormed(p) && Fits(p)
    ensures PublishArm(Body(p) + tail, First(p), |Body(p)|, subs)
            == Next([Publish(Stored(p.topic, MAX_TOPIC_LEN), CStr(p.payload))], subs, tail)
  {
    hide CStr, Qos, First, Body, ReadStr, StringField, AfterExact, WellFormed;
    AfterTopic(p, tail);
    assert |p.topic| < 0x1_0000 by { TopicIsField(p); }
    ReadStringField(p.topic, p.id + (p.payload + tail), MAX_TOPIC_LEN);
  }

  predicate SubscribeType(t: byte) {
    t == SUBSCRIBE_AS_WRITTEN || t == SUBSCRIBE_AS_INTENDED
  }

  lemma HeaderExact(p: Packet, tail: seq<byte>)
    requires WellFormed(p) && Fits(p)
    ensures var s := Encode(p) + tail;
            s != [] && s[0] == First(p) && DecodeLen(s[1..]) == Len(|Body(p)|, Body(p) + tail)
  {
    hide EncodeLen, Body, First;
    var s := Encode(p) + tail;
    assert s[1..] == EncodeLen(|Body(p)|) + (Body(p) + tail);
    DecodeEncoded(|Body(p)|, Body(p) + tail);
  }

  lemma TypeOf(p: Packet)
    requires WellFormed(p)
    ensures First(p) / 16 * 16 ==
            match p
            case Connect(_, _, _) => MQTT_CONNECT
            case Subscribe(_, _) => SUBSCRIBE_AS_INTENDED
            case Publication(_, _, _, _) => MQTT_PUBLISH
            case PingReq => MQTT_PINGREQ
            case Disconnect => MQTT_DISCONNECT
            case Other(first, _) => first / 16 * 16
    ensures First(p) / 16 * 16 != SUBSCRIBE_AS_WRITTEN
  {
  }

  /** One packet, followed by anything: exactly its bytes are consumed, and it has its meaning. */
  lemma {:induction false} PacketExact(p: Packet, tail: seq<byte>, subs: nat, t: byte)
    requires WellFormed(p) && Fits(p) && subs <= MAX_SUBS_PER_CLIENT && SubscribeType(t)
    ensures p.Disconnect? ==> Iterate(Encode(p) + tail, subs, t) == Stop([], tail)
    ensures !p.Disconnect? ==>
              Iterate(Encode(p) + tail, subs, t) == Next(Meaning(p, subs, t), SubsAfter(p, subs, t), tail)
  {
    hide ConnectArm, SubscribeArm, PublishArm, Encode, DecodeLen, Granted;
    HeaderExact(p, tail);
    TypeOf(p);
    assert (Body(p) + tail)[|Body(p)|..] == tail;
    match p
    case Connect(_, _, _) => ConnectExact(p, tail, subs);
    case Publication(_, _, _, _) => PublishExact(p, tail, subs);
    case Subscribe(_, _) => SubscribeExact(p, tail, subs);
    case Other(_, _) =>
    case _ => assert Body(p) + tail == tail;
  }

  // A stream of packets.

  predicate Acceptable(ps: seq<Packet>) {
    forall p :: p in ps ==> WellFormed(p) && Fits(p) && !p.Disconnect?
  }

  function EncodeAll(ps: seq<Packet>): seq<byte>
    requires Acceptable(ps)
  {
    if ps == [] then [] else Encode(ps[0]) + EncodeAll(ps[1..])
  }

  function Meanings(ps: seq<Packet>, subs: nat, t: byte): seq<Action>
    requires subs <= MAX_SUBS_PER_CLIENT
  {
    if ps == [] then [] else Meaning(ps[0], subs, t) + Meanings(ps[1..], SubsAfter(ps[0], subs, t), t)
  }

  function SubsAfterAll(ps: seq<Packet>, subs: nat, t: byte): (n: nat)
    requires subs <= MAX_SUBS_PER_CLIENT
    ensures n <= MAX_SUBS_PER_CLIENT
  {
    if ps == [] then subs else SubsAfterAll(ps[1..], SubsAfter(ps[0], subs, t), t)
  }

  /** The task consumes the bytes of each packet exactly and is back at a packet boundary after the
      last one, whatever bytes follow; what it asks for is what the packets mean, in order. */
  lemma {:induction false} StreamExact(ps: seq<Packet>, tail: seq<byte>, subs: nat, t: byte)
    requires Acceptable(ps) && subs <= MAX_SUBS_PER_CLIENT && SubscribeType(t)
    ensures var h := Handle(tail, SubsAfterAll(ps, subs, t), t);
            Handle(EncodeAll(ps) + tail, subs, t) == Handled(Meanings(ps, subs, t) + h.acts, h.rest)
  {
    hide Iterate, Handle, Meaning, SubsAfter, Encode;
    var s := EncodeAll(ps) + tail;
    if ps == [] {
      assert s == tail;
    } else {
      var p, rest := ps[0], EncodeAll(ps[1..]) + tail;
      assert s == Encode(p) + rest;
      PacketExact(p, rest, subs, t);
      HandleStep(s, subs, t);
      StreamExact(ps[1..], tail, SubsAfter(p, subs, t), t);
      var h := Handle(tail, SubsAfterAll(ps, subs, t), t);
      assert Meaning(p, subs, t) + (Meanings(ps[1..], SubsAfter(p, subs, t), t) + h.acts)
          == Meanings(ps, subs, t) + h.acts;
    }
  }

  /** A whole session: packets, then DISCONNECT; nothing after it is read. */
  lemma {:induction false} SessionExact(ps: seq<Packet>, unread: seq<byte>, t: byte)
    requires Acceptable(ps) && SubscribeType(t)
    ensures Handle(EncodeAll(ps) + (Encode(Disconnect) + unread), 0, t) == Handled(Meanings(ps, 0, t), unread)
    ensures Handle(EncodeAll(ps), 0, t) == Handled(Meanings(ps, 0, t), [])
  {
    hide Iterate, Handle, Encode;
    var end := Encode(Disconnect) + unread;
    var subs := SubsAfterAll(ps, 0, t);
    StreamExact(ps, end, 0, t);
    PacketExact(Disconnect, unread, subs, t);
    HandleStep(end, subs, t);
    StreamExact(ps, [], 0, t);
    HandleStep([], subs, t);
    IterateEmpty(subs, t);
    assert EncodeAll(ps) + [] == EncodeAll(ps);
    assert Meanings(ps, 0, t) + [] == Meanings(ps, 0, t);
  }

  lemma IterateEmpty(subs: nat, t: byte)
    ensures Iterate([], subs, t) == Stop([], [])
  {
  }

  /** SUBACK carries one return code for each topic filter, as section 3.9.3 asks, if and only if
      every filter found a free slot. */
  lemma {:induction false} SubackComplete(p: Packet, tail: seq<byte>, subs: nat)
    requires p.Subscribe? && WellFormed(p) && Fits(p) && subs <= MAX_SUBS_PER_CLIENT
    ensures var o := Iterate(Encode(p) + tail, subs, SUBSCRIBE_AS_INTENDED);
            && o.Next? && |o.acts| >= 2 && o.acts[|o.acts| - 1].Reply?
            && (|o.acts[|o.acts| - 1].bytes| == |p.topics| <==> subs + |p.topics| <= 8)
  {
    hide Iterate, Encode;
    PacketExact(p, tail, subs, SUBSCRIBE_AS_INTENDED);
  }

  /** Asks for no filter, and leaves the slots of the client alone. */
  ghost predicate NoFilter(o: Outcome, subs: nat) {
    (forall i :: 0 <= i < |o.acts| ==> !o.acts[i].AddFilter?) && (o.Next? ==> o.subs == subs)
  }

  lemma ConnectNoFilter(s: seq<byte>, len: u32, subs: nat)
    ensures NoFilter(ConnectArm(s, len, subs), subs)
  {
    hide CStr;
  }

  lemma PublishNoFilter(s: seq<byte>, first: byte, len: u32, subs: nat)
    ensures NoFilter(PublishArm(s, first, len, subs), subs)
  {
    hide CStr, ReadStr;
  }

  lemma NoFilterAsWritten(s: seq<byte>, subs: nat)
    ensures NoFilter(Iterate(s, subs, SUBSCRIBE_AS_WRITTEN), subs)
  {
    hide DecodeDigits, ConnectArm, SubscribeArm, PublishArm;
    if s != [] && DecodeLen(s[1..]).Len? {
      var d := DecodeLen(s[1..]);
      ConnectNoFilter(d.rest, d.value, subs);
      PublishNoFilter(d.rest, s[0], d.value, subs);
      assert s[0] / 16 * 16 != SUBSCRIBE_AS_WRITTEN;
    }
  }

  /** As written, the SUBSCRIBE arm compares a multiple of 16 with 0x82: no stream of bytes whatever
      gets a filter into the table. */
  lemma {:induction false} NeverSubscribesAsWritten(s: seq<byte>, subs: nat)
    ensures forall a :: a in Handle(s, subs, SUBSCRIBE_AS_WRITTEN).acts ==> !a.AddFilter?
    ensures Iterate(s, subs, SUBSCRIBE_AS_WRITTEN).Next? ==> Iterate(s, subs, SUBSCRIBE_AS_WRITTEN).subs == subs
    decreases |s|
  {
    hide Handle, Iterate;
    var o := Iterate(s, subs, SUBSCRIBE_AS_WRITTEN);
    NoFilterAsWritten(s, subs);
    HandleStep(s, subs, SUBSCRIBE_AS_WRITTEN);
    if o.Next? {
      NeverSubscribesAsWritten(o.rest, o.subs);
    }
  }
}
