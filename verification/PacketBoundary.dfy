/** Where the packet loop loses the packet boundary, over all packets, well-formed or not. */
module PacketBoundary {
  import opened Bytes
  import opened Socket
  import opened RemainingLength
  import opened PacketHandler
  import opened PacketFraming

  predicate Suffix(r: seq<byte>, s: seq<byte>) {
    |r| <= |s| && r == s[|s| - |r|..]
  }

  lemma SuffixSelf(s: seq<byte>)
    ensures Suffix(s, s)
  {
  }

  lemma SuffixDrop(r: seq<byte>, s: seq<byte>, n: nat)
    requires Suffix(r, s) && n <= |r|
    ensures Suffix(r[n..], s)
  {
  }

  lemma SuffixTrans(q: seq<byte>, r: seq<byte>, s: seq<byte>)
    requires Suffix(q, r) && Suffix(r, s)
    ensures Suffix(q, s)
  {
    var n := |r| - |q|;
    assert r[n..] == s[|s| - |r|..][n..] == s[|s| - |q|..];
  }

  lemma ReadStrSuffix(s: seq<byte>, max: nat)
    ensures ReadStr(s, max).Str? ==> Suffix(ReadStr(s, max).rest, s)
    ensures ReadStr(s, max).Str? ==> |s| >= 2 && ReadStr(s, max).len == U16(s[0], s[1])
  {
  }

  // CONNECT.

  /** How many bytes of a body of the given length count as the fixed part of the variable header. */
  function FixedPart(len: nat): nat {
    if len >= 10 then 10 else if len >= 7 then 7 else if len >= 3 then 3 else 0
  }

  /** The client identifier, if the rest of the body has room for its length, lies inside the body. */
  predicate ConnectInside(body: seq<byte>) {
    var m := FixedPart(|body|);
    |body| >= m + 2 ==> m + 2 + U16(body[m], body[m + 1]) <= |body|
  }

  lemma HeaderTakes(body: seq<byte>, tail: seq<byte>)
    requires |body| < MAX_DECODABLE
    ensures var m := FixedPart(|body|);
            m <= |body| && ConnectHeader(body + tail, |body|) == Unread(body[m..] + tail, |body| - m)
  {
    var s := body + tail;
    assert s[0..] == s;
    if |body| >= 10 {
      assert s[7..][3..] == body[10..] + tail;
    }
  }

  lemma ConnectAligned(body: seq<byte>, tail: seq<byte>, subs: nat)
    requires |body| < MAX_DECODABLE && ConnectArm(body + tail, |body|, subs).Next?
    ensures ConnectArm(body + tail, |body|, subs).rest == tail <==> ConnectInside(body)
  {
    hide CStr, ConnectHeader;
    HeaderTakes(body, tail);
    var m := FixedPart(|body|);
    var b := body[m..];
    if |b| >= 2 {
      var field := ReadStr(b + tail, CLIENT_ID_LEN);
      ReadStrSuffix(b + tail, CLIENT_ID_LEN);
      assert (b + tail)[0] == body[m] && (b + tail)[1] == body[m + 1];
      if 2 + field.len <= |b| {
        assert field.rest[|b| - 2 - field.len..] == tail;
      }
    } else {
      assert (b + tail)[|b|..] == tail;
    }
  }

  // SUBSCRIBE.

  /** Every filter that is read, with the byte after it, lies inside what is left of the body. */
  predicate FiltersInside(b: seq<byte>, subs: nat)
    decreases |b|
  {
    |b| <= 2 || subs >= MAX_SUBS_PER_CLIENT ||
    (3 + U16(b[0], b[1]) <= |b| && FiltersInside(b[3 + U16(b[0], b[1])..], subs + 1))
  }

  predicate SubscribeInside(body: seq<byte>, subs: nat) {
    |body| >= 2 && FiltersInside(body[2..], subs)
  }

  /** What one turn of the filter loop does to the stream. */
  lemma SubLoopTurn(s: seq<byte>, left: u32, subs: nat)
    ensures var r, one := SubLoop(s, left, subs), ReadStr(s, MAX_TOPIC_LEN);
            if left <= 2 || subs >= MAX_SUBS_PER_CLIENT then r.ok && r.left == left && r.rest == s
            else if one.NoStr? || one.rest == [] then !r.ok
            else
              var q := SubLoop(one.rest[1..], Sub32(Sub32(left, 2 + one.len), 1), subs + 1);
              r.ok == q.ok && r.left == q.left && r.rest == q.rest
  {
    hide CStr, ReadStr;
  }

  lemma {:induction false} SubLoopSuffix(s: seq<byte>, left: u32, subs: nat)
    ensures SubLoop(s, left, subs).ok ==> Suffix(SubLoop(s, left, subs).rest, s)
    decreases MAX_SUBS_PER_CLIENT - subs
  {
    hide CStr, ReadStr, Suffix, SubLoop;
    SubLoopTurn(s, left, subs);
    SuffixSelf(s);
    var one := ReadStr(s, MAX_TOPIC_LEN);
    ReadStrSuffix(s, MAX_TOPIC_LEN);
    if left > 2 && subs < MAX_SUBS_PER_CLIENT && one.Str? && one.rest != [] {
      var r := SubLoop(one.rest[1..], Sub32(Sub32(left, 2 + one.len), 1), subs + 1);
      SubLoopSuffix(one.rest[1..], Sub32(Sub32(left, 2 + one.len), 1), subs + 1);
      SuffixDrop(one.rest, s, 1);
      if r.ok { SuffixTrans(r.rest, one.rest[1..], s); }
    }
  }

  lemma {:induction false} FiltersAligned(b: seq<byte>, tail: seq<byte>, subs: nat)
    requires |b| < MAX_DECODABLE
    ensures var r := SubLoop(b + tail, |b|, subs);
            r.ok && r.left <= |r.rest| ==> (r.rest[r.left..] == tail <==> FiltersInside(b, subs))
    decreases |b|
  {
    hide CStr, ReadStr, SubLoop;
    var s := b + tail;
    SubLoopTurn(s, |b|, subs);
    if |b| <= 2 || subs >= MAX_SUBS_PER_CLIENT {
      assert s[|b|..] == tail;
    } else {
      var one := ReadStr(s, MAX_TOPIC_LEN);
      ReadStrSuffix(s, MAX_TOPIC_LEN);
      assert s[0] == b[0] && s[1] == b[1];
      if one.Str? && one.rest != [] {
        var next := one.rest[1..];
        if 3 + one.len <= |b| {
          assert next == b[3 + one.len..] + tail;
          FiltersAligned(b[3 + one.len..], tail, subs + 1);
        } else {
          SubLoopSuffix(next, Sub32(Sub32(|b|, 2 + one.len), 1), subs + 1);
        }
      }
    }
  }

  lemma SubscribeAligned(body: seq<byte>, tail: seq<byte>, subs: nat)
    requires |body| < MAX_DECODABLE && SubscribeArm(body + tail, |body|, subs).Next?
    ensures SubscribeArm(body + tail, |body|, subs).rest == tail <==> SubscribeInside(body, subs)
  {
    hide CStr, SubLoop, PacketId;
    var s := body + tail;
    var after := AfterExact(s, 2);
    var left := Sub32(|body|, 2);
    SubLoopSuffix(after, left, subs);
    if |body| >= 2 {
      assert after == body[2..] + tail;
      FiltersAligned(body[2..], tail, subs);
    } else if |s| < 2 {
      SubLoopEnd(after, left, subs);
      EmptyString();
    }
  }

  lemma EmptyString()
    ensures ReadStr([], MAX_TOPIC_LEN).NoStr?
  {
  }

  // PUBLISH.

  /** `body` is the variable header and payload of a PUBLISH whose first byte is `first`. */
  predicate PublishFits(body: seq<byte>, first: byte) {
    |body| >= 2 &&
    var tl := U16(body[0], body[1]);
    var rest: int := |body| - 2 - tl;
    rest >= 0 && (if first / 2 % 4 > 0 && rest >= 2 then rest - 2 else rest) < JSON_BUF_SIZE
  }

  /** Of all PUBLISH bodies of the announced length, well-formed or not, after which the task goes on
      to another packet, those that leave it at the packet boundary are exactly the ones whose topic
      field lies inside the packet and whose payload is at most 749 bytes. */
  lemma PublishAligned(body: seq<byte>, tail: seq<byte>, first: byte, subs: nat)
    requires |body| < MAX_DECODABLE && PublishArm(body + tail, first, |body|, subs).Next?
    ensures PublishArm(body + tail, first, |body|, subs).rest == tail <==> PublishFits(body, first)
  {
    hide CStr;
    var s := body + tail;
    var o := PublishArm(s, first, |body|, subs);
    var field := ReadStr(s, MAX_TOPIC_LEN);
    if |body| < 2 + field.len {
      assert |o.rest| <= |field.rest| < |tail|;
      assert |body| >= 2 ==> field.len == U16(body[0], body[1]);
    } else {
      var rest := |body| - 2 - field.len;
      var id := if first / 2 % 4 > 0 && rest >= 2 then 2 else 0;
      var pl := Min(rest - id, JSON_BUF_SIZE - 1);
      assert o.rest == (if id == 2 then AfterExact(field.rest, 2) else field.rest)[pl..];
      assert |o.rest| == |tail| + rest - id - pl;
      assert rest - id == pl ==> o.rest == s[|body|..] == tail;
    }
  }

  // All types.

  /** What the loop takes for the packet lies inside it. A PINGREQ is never skipped over. */
  predicate Inside(first: byte, body: seq<byte>, subs: nat, t: byte) {
    var pktType := first / 16 * 16;
    if pktType == MQTT_CONNECT then ConnectInside(body)
    else if pktType == t then SubscribeInside(body, subs)
    else if pktType == MQTT_PINGREQ then body == []
    else if pktType == MQTT_PUBLISH then PublishFits(body, first)
    else true
  }

  /** The arm for a packet of `len` bytes after its fixed header. */
  function Dispatch(first: byte, s: seq<byte>, len: u32, subs: nat, t: byte): Outcome {
    var pktType := first / 16 * 16;
    if pktType == MQTT_CONNECT then ConnectArm(s, len, subs)
    else if pktType == t then SubscribeArm(s, len, subs)
    else if pktType == MQTT_PINGREQ then Next([Reply([MQTT_PINGRESP, 0])], subs, s)
    else if pktType == MQTT_DISCONNECT then Stop([], s)
    else if pktType == MQTT_PUBLISH then PublishArm(s, first, len, subs)
    else if len > |s| then Stop([], [])
    else Next([], subs, s[len..])
  }

  lemma HeaderDispatches(first: byte, field: seq<byte>, len: nat, s: seq<byte>, subs: nat, t: byte)
    requires len < MAX_DECODABLE && DecodeLen(field + s) == Len(len, s)
    ensures Iterate([first] + field + s, subs, t) == Dispatch(first, s, len, subs, t)
  {
    hide DecodeDigits, ConnectArm, SubscribeArm, PublishArm;
    var all := [first] + field + s;
    assert all[0] == first && all[1..] == field + s;
  }

  /** For every first byte, every length field that the decoder reads as the length of the body, shortest or
      not, and every body, well-formed or not, after which the task goes on to another packet: it is at the
      packet boundary exactly if what it took for the packet lies inside it. */
  lemma {:induction false} BoundaryExactly(first: byte, field: seq<byte>, body: seq<byte>, tail: seq<byte>, subs: nat, t: byte)
    requires DecodeLen(field + (body + tail)) == Len(|body|, body + tail) && SubscribeType(t)
    requires Iterate([first] + field + (body + tail), subs, t).Next?
    ensures Iterate([first] + field + (body + tail), subs, t).rest == tail <==> Inside(first, body, subs, t)
  {
    assert |body| < MAX_DECODABLE;
    hide Iterate, DecodeDigits, ConnectArm, SubscribeArm, PublishArm, ConnectInside, SubscribeInside, PublishFits;
    HeaderDispatches(first, field, |body|, body + tail, subs, t);
    assert (body + tail)[|body|..] == tail;
    var pktType := first / 16 * 16;
    if pktType == MQTT_CONNECT {
      ConnectAligned(body, tail, subs);
    } else if pktType == t {
      SubscribeAligned(body, tail, subs);
    } else if pktType == MQTT_PINGREQ {
      PrefixIsNone(body, tail);
    } else if pktType == MQTT_PUBLISH {
      PublishAligned(body, tail, first, subs);
    }
  }

  lemma PrefixIsNone(body: seq<byte>, tail: seq<byte>)
    ensures body + tail == tail <==> body == []
  {
    if body != [] {
      assert |body + tail| != |tail|;
    }
  }

  /** A PINGREQ with a body of one byte leaves that byte to be taken for the next packet, and a 0xE0 there
      ends the session. */
  lemma PingBodyLost(x: byte, tail: seq<byte>, t: byte)
    requires SubscribeType(t)
    ensures Iterate([MQTT_PINGREQ, 1, x] + tail, 0, t) == Next([Reply([MQTT_PINGRESP, 0])], 0, [x] + tail)
    ensures Handle([MQTT_PINGREQ, 1, MQTT_DISCONNECT, 0] + tail, 0, t).rest == tail
  {
    hide DecodeDigits;
    PingBodyStep(x, tail, t);
    PingBodyStep(MQTT_DISCONNECT, [0] + tail, t);
    var s := [MQTT_PINGREQ, 1, MQTT_DISCONNECT, 0] + tail;
    assert s == [MQTT_PINGREQ, 1, MQTT_DISCONNECT] + ([0] + tail);
    var rest := [MQTT_DISCONNECT] + ([0] + tail);
    HandleStep(s, 0, t);
    HandleStep(rest, 0, t);
    assert rest[1..] == [0] + tail;
    assert EncodeLen(0) + tail == [0] + tail;
    DecodeEncoded(0, tail);
  }

  lemma PingBodyStep(x: byte, tail: seq<byte>, t: byte)
    requires SubscribeType(t)
    ensures Iterate([MQTT_PINGREQ, 1, x] + tail, 0, t) == Next([Reply([MQTT_PINGRESP, 0])], 0, [x] + tail)
  {
    hide DecodeDigits;
    var s := [MQTT_PINGREQ, 1, x] + tail;
    assert s[1..] == EncodeLen(1) + ([x] + tail);
    DecodeEncoded(1, [x] + tail);
  }

  lemma LongZero(tail: seq<byte>)
    ensures DecodeLen([0x80, 0x00] + tail) == Len(0, tail)
  {
    var s: seq<byte> := [0x80, 0x00] + tail;
    var s1 := s[1..];
    assert s1 == [0] + tail && s1[1..] == tail;
    assert DecodeDigits(s1, 2) == Len(0, tail);
    assert s[0] == 0x80 && DecodeDigits(s, 3) == Len(0, tail);
  }

  /** The shortest field is one such field, and there are others. */
  lemma FieldsDecoded(body: seq<byte>, tail: seq<byte>)
    ensures |body| < MAX_DECODABLE ==> DecodeLen(EncodeLen(|body|) + (body + tail)) == Len(|body|, body + tail)
    ensures DecodeLen([0x80, 0x00] + tail) == Len(0, tail)
  {
    DecodeEncoded(|body|, body + tail);
    LongZero(tail);
  }

  // The same in bytes, for the packets that the standard names.

  /** The first bytes of section 2.2.1, and what the packets lead to: the replies of sections 3.2, 3.9 and 3.13,
      texts of at most 31 and 63 bytes, eight filters. */
  lemma StandardBytes(p: Packet, subs: nat)
    requires WellFormed(p) && subs <= 8
    ensures Encode(p)[0] == match p
                            case Connect(_, _, _) => 0x10
                            case Subscribe(_, _) => 0x82
                            case Publication(flags, _, _, _) => 0x30 + flags
                            case PingReq => 0xC0
                            case Disconnect => 0xE0
                            case Other(first, _) => first
    ensures Encode(p)[1..] == EncodeLen(|Body(p)|) + Body(p)
    ensures p.PingReq? ==> Meaning(p, subs, 0x80) == [Reply([0xD0, 0x00])] && Encode(p) == [0xC0, 0x00]
    ensures p.Connect? ==>
              Meaning(p, subs, 0x80)
              == [SetClientId(CStr(if |p.clientId| < 32 then p.clientId else [])), Reply([0x20, 0x02, 0x00, 0x00])]
    ensures p.Publication? ==>
              Meaning(p, subs, 0x80)
              == [PacketHandler.Publish(CStr(if |p.topic| < 64 then p.topic else []), CStr(p.payload))]
  {
    hide CStr, Body, EncodeLen;
    assert Encode(p)[1..] == EncodeLen(|Body(p)|) + Body(p);
    if p.PingReq? { PingBytes(); }
  }

  lemma PingBytes()
    ensures Encode(PingReq) == [0xC0, 0x00]
  {
    assert EncodeLen(0) == [0];
  }

  lemma StandardSubscribe(p: Packet, subs: nat)
    requires WellFormed(p) && p.Subscribe? && subs <= 8
    ensures var n := Min(|p.topics|, 8 - subs);
            var acts := Meaning(p, subs, 0x80);
            && |acts| == n + 2 && acts[n] == Reply([0x90, 2 + n] + p.id)
            && acts[n + 1].Reply? && |acts[n + 1].bytes| == n && SubsAfter(p, subs, 0x80) == subs + n
            && forall i :: 0 <= i < n ==>
                 && acts[i] == AddFilter(CStr(if |p.topics[i].filter| < 64 then p.topics[i].filter else []))
                 && acts[n + 1].bytes[i] == p.topics[i].qos % 2
  {
    hide CStr, WellFormed;
  }

  /** A CONNECT without a client identifier: the client is called "unknown". */
  lemma ConnectNoId(header: seq<byte>, tail: seq<byte>, subs: nat, t: byte)
    requires |header| == 10 && SubscribeType(t)
    ensures Iterate([0x10, 10] + header + tail, subs, t)
            == Next([SetClientId([117, 110, 107, 110, 111, 119, 110]), Reply([0x20, 0x02, 0x00, 0x00])], subs, tail)
  {
    hide DecodeDigits;
    assert EncodeLen(10) == [10];
    DecodeEncoded(10, header + tail);
    assert [0x10] + EncodeLen(10) + (header + tail) == [0x10, 10] + header + tail;
    HeaderDispatches(0x10, EncodeLen(10), 10, header + tail, subs, t);
    assert (header + tail)[7..][3..] == tail;
  }

  lemma CutAt(a: seq<byte>, b: seq<byte>, n: nat)
    requires n <= |a|
    ensures (a + b)[..n] == a[..n] && (a + b)[n..] == a[n..] + b
  {
  }

  /** A payload of 750 bytes or more: its first 749 are published, and the rest is left to be taken for the next
      packet. */
  lemma PublishCut(p: Packet, tail: seq<byte>, subs: nat)
    requires p.Publication? && WellFormed(p) && |Body(p)| < 0x20_0000 && |p.payload| >= 750
    ensures PublishArm(Body(p) + tail, First(p), |Body(p)|, subs)
            == Next([PacketHandler.Publish(CStr(if |p.topic| < 64 then p.topic else []), CStr(p.payload[..749]))], subs,
                    p.payload[749..] + tail)
  {
    hide CStr, Qos, First, Body, ReadStr, StringField, AfterExact, WellFormed;
    AfterTopic(p, tail);
    assert |p.topic| < 0x1_0000 by { TopicIsField(p); }
    ReadStringField(p.topic, p.id + (p.payload + tail), MAX_TOPIC_LEN);
    CutAt(p.payload, tail, 749);
  }
}
