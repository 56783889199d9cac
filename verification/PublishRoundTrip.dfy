/** What the broker sends as a PUBLISH against what its own packet loop makes of those bytes. */
module PublishRoundTrip {
  import opened Bytes
  import opened RemainingLength
  import opened PacketHandler
  import opened PacketFraming
  import opened BrokerTable

  /** The packet that a frame stands for. */
  function AsPacket(topic: seq<byte>, payload: seq<byte>, qos: nat, pktId: nat): Packet
    requires qos <= 2 && pktId < 0x1_0000
  {
    Publication(qos * 2, topic, if qos > 0 then [pktId / 256, pktId % 256] else [], payload)
  }

  /** A topic that its length field can describe makes the frame a PUBLISH of section 3.3. */
  lemma FrameIsPacket(topic: seq<byte>, payload: seq<byte>, qos: nat, pktId: nat)
    requires qos <= 2 && pktId < 0x1_0000 && |topic| < 0x1_0000
    ensures var p := AsPacket(topic, payload, qos, pktId);
            WellFormed(p) && PublishFrame(topic, payload, qos, pktId) == Encode(p)
  {
    hide EncodeLen, PublishFrame;
    var p := AsPacket(topic, payload, qos, pktId);
    FrameParts(topic, payload, qos, pktId);
    assert [|topic| / 256 % 256, |topic| % 256] == [|topic| / 256, |topic| % 256];
    assert Qos(p.flags) == qos;
    assert |Body(p)| == PublishLen(topic, payload, qos);
  }

  /** A text that came out of a buffer is shorter than the buffer. */
  lemma PublishIsShort(s: seq<byte>, first: byte, len: u32, subs: nat)
    ensures var o := PublishArm(s, first, len, subs);
            o.Next? ==>
              && |o.acts| == 1 && o.acts[0].Publish?
              && |o.acts[0].topic| < MAX_TOPIC_LEN && |o.acts[0].payload| < JSON_BUF_SIZE
  {
  }

  lemma LongFrameChanges(topic: seq<byte>, payload: seq<byte>, qos: nat, pktId: nat, tail: seq<byte>, subs: nat, t: byte)
    requires qos <= 2 && pktId < 0x1_0000 && SubscribeType(t)
    requires PublishLen(topic, payload, qos) < MAX_ENCODABLE
    requires |topic| >= MAX_TOPIC_LEN || |payload| >= JSON_BUF_SIZE
    ensures var o := Iterate(PublishFrame(topic, payload, qos, pktId) + tail, subs, t);
            o.Next? ==> o.acts != [Publish(topic, payload)]
  {
    hide EncodeLen, DecodeLen, PublishArm, PublishFrame;
    FrameParts(topic, payload, qos, pktId);
    var len := PublishLen(topic, payload, qos);
    var s := PublishFrame(topic, payload, qos, pktId) + tail;
    var body := [|topic| / 256 % 256, |topic| % 256] + topic
      + (if qos > 0 then [pktId / 256, pktId % 256] else []) + payload + tail;
    assert s[1..] == EncodeLen(len) + body;
    DecodeEncoded(len, body);
    assert s[0] == MQTT_PUBLISH + qos * 2 && s[0] / 16 * 16 == MQTT_PUBLISH;
    if len < MAX_DECODABLE {
      PublishIsShort(body, s[0], len, subs);
    }
  }

  /** For all C strings: the bytes of a frame are read back as the same topic and payload, with nothing
      left over and nothing taken from what follows, if and only if the topic has at most 63 bytes
      and the payload at most 749. */
  lemma RoundTrip(topic: seq<byte>, payload: seq<byte>, qos: nat, pktId: nat, tail: seq<byte>, subs: nat, t: byte)
    requires 0 !in topic && 0 !in payload && qos <= 2 && pktId < 0x1_0000
    requires PublishLen(topic, payload, qos) < MAX_ENCODABLE
    requires subs <= MAX_SUBS_PER_CLIENT && SubscribeType(t)
    ensures Iterate(PublishFrame(topic, payload, qos, pktId) + tail, subs, t)
            == Next([Publish(topic, payload)], subs, tail)
            <==> |topic| < 64 && |payload| < 750
  {
    hide Iterate, PublishFrame, Encode;
    if |topic| < MAX_TOPIC_LEN && |payload| < JSON_BUF_SIZE {
      FrameIsPacket(topic, payload, qos, pktId);
      var p := AsPacket(topic, payload, qos, pktId);
      PacketExact(p, tail, subs, t);
      CStrOfNulFree(topic);
      CStrOfNulFree(payload);
    } else {
      LongFrameChanges(topic, payload, qos, pktId, tail, subs, t);
    }
  }

  /** Through the table: what broker_publish adds to a client's stream is empty for a client without a
      matching filter, and otherwise one frame that reads back as that topic and payload. */
  lemma {:induction false} DeliveryReadsBack(out: Output, table: seq<Slot>, topic: seq<byte>, payload: seq<byte>, qos: nat, pktId: nat, sock: int, tail: seq<byte>)
    returns (news: seq<byte>)
    requires TableOk(table) && DistinctSockets(table) && qos <= 2 && pktId < 0x1_0000
    requires 0 !in topic && 0 !in payload && |topic| < MAX_TOPIC_LEN && |payload| < JSON_BUF_SIZE
    ensures var out' := Deliver(out, table, topic, PublishChunks(topic, payload, qos, pktId));
            Sent(out', sock) == Sent(out, sock) + news
    ensures news != [] <==> Selected(table, topic, sock)
    ensures news != [] ==> Iterate(news + tail, 0, SUBSCRIBE_AS_WRITTEN) == Next([Publish(topic, payload)], 0, tail)
  {
    hide Iterate, EncodeLen, PublishChunks, Selected;
    var cs := PublishChunks(topic, payload, qos, pktId);
    DeliverOnce(out, table, topic, cs, sock);
    RoundTrip(topic, payload, qos, pktId, tail, 0, SUBSCRIBE_AS_WRITTEN);
    FrameParts(topic, payload, qos, pktId);
    news := if Selected(table, topic, sock) then Concat(cs) else [];
  }
}
