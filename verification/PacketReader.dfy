/** A client's view of a byte stream: control packets one after the other, told apart by their fixed headers
    (section 2.2 of MQTT 3.1.1). */
module PacketReader {
  import opened Bytes
  import opened RemainingLength
  import opened PacketHandler
  import opened BrokerTable
  import opened Seqs

  const MAX_LEN_DIGITS := 4

  /** One control packet: the fixed header announces the bytes that follow it. */
  predicate IsPacket(p: seq<byte>) {
    p != [] && var d := DecodeDigits(p[1..], MAX_LEN_DIGITS); d.Len? && |d.rest| == d.value
  }

  /** The first packet of a stream, or all of a stream that does not hold a whole one. */
  function FirstPacket(s: seq<byte>): (p: seq<byte>)
    requires s != []
    ensures p != [] && p <= s
  {
    match DecodeDigits(s[1..], MAX_LEN_DIGITS)
    case Len(v, rest) => if v <= |rest| then s[..|s| - |rest| + v] else s
    case NoLen(_) => s
  }

  function ReadPackets(s: seq<byte>): seq<seq<byte>>
    decreases |s|
  {
    if s == [] then [] else var p := FirstPacket(s); [p] + ReadPackets(s[|p|..])
  }

  lemma {:induction false} DecodeMore(s: seq<byte>, tail: seq<byte>, left: nat)
    requires DecodeDigits(s, left).Len?
    ensures var d := DecodeDigits(s, left); DecodeDigits(s + tail, left) == Len(d.value, d.rest + tail)
  {
    assert (s + tail)[0] == s[0] && (s + tail)[1..] == s[1..] + tail;
    if s[0] >= 128 {
      DecodeMore(s[1..], tail, left - 1);
    }
  }

  lemma {:induction false} DecodeLess(s: seq<byte>, n: nat, left: nat)
    requires DecodeDigits(s, left).Len? && |s| - |DecodeDigits(s, left).rest| <= n <= |s|
    ensures var d := DecodeDigits(s, left);
            DecodeDigits(s[..n], left) == Len(d.value, d.rest[..n - (|s| - |d.rest|)])
  {
    var d := DecodeDigits(s, left);
    assert |d.rest| < |s| && s[..n][0] == s[0] && s[..n][1..] == s[1..][..n - 1];
    if s[0] >= 128 {
      DecodeLess(s[1..], n - 1, left - 1);
    }
  }

  /** Whatever follows a packet, it is read as that packet. */
  lemma ReadsFirst(p: seq<byte>, tail: seq<byte>)
    requires IsPacket(p)
    ensures p + tail != [] && FirstPacket(p + tail) == p && (p + tail)[|p|..] == tail
  {
    hide DecodeDigits;
    assert (p + tail)[1..] == p[1..] + tail;
    DecodeMore(p[1..], tail, MAX_LEN_DIGITS);
    assert (p + tail)[..|p|] == p;
  }

  /** A stream of packets is read as these packets. */
  lemma {:induction false} ReadsPackets(ps: seq<seq<byte>>)
    requires forall i :: 0 <= i < |ps| ==> IsPacket(ps[i])
    ensures ReadPackets(Concat(ps)) == ps
  {
    hide IsPacket, FirstPacket;
    if ps != [] {
      ReadsPackets(ps[1..]);
      ReadsFirst(ps[0], Concat(ps[1..]));
      assert [ps[0]] + ps[1..] == ps;
    }
  }

  /** The reader drops no byte, and all that it reads are packets, an unfinished last one apart. */
  lemma {:induction false} ReadsAll(s: seq<byte>)
    ensures Concat(ReadPackets(s)) == s
    ensures forall i :: 0 <= i < |ReadPackets(s)| - 1 ==> IsPacket(ReadPackets(s)[i])
    decreases |s|
  {
    hide IsPacket, FirstPacket;
    if s != [] {
      var p := FirstPacket(s);
      var rest := ReadPackets(s[|p|..]);
      ReadsAll(s[|p|..]);
      JoinHead([p], rest);
      assert ([p] + rest)[1..] == rest;
      if rest != [] { FirstIsPacket(s); }
    }
  }

  lemma FirstIsPacket(s: seq<byte>)
    requires s != [] && FirstPacket(s) != s
    ensures IsPacket(FirstPacket(s))
  {
    hide DecodeDigits;
    var d, p := DecodeDigits(s[1..], MAX_LEN_DIGITS), FirstPacket(s);
    DecodeLess(s[1..], |p| - 1, MAX_LEN_DIGITS);
    assert p[1..] == s[1..][..|p| - 1];
  }

  lemma FieldIsPacket(first: byte, field: seq<byte>, body: seq<byte>)
    requires DecodeDigits(field + body, MAX_LEN_DIGITS) == Len(|body|, body)
    ensures IsPacket([first] + field + body)
  {
    hide DecodeDigits;
    assert ([first] + field + body)[1..] == field + body;
  }

  /** A fixed header with the shortest length field. */
  lemma HeaderIsPacket(first: byte, body: seq<byte>)
    requires |body| < MAX_ENCODABLE
    ensures IsPacket([first] + EncodeLen(|body|) + body)
  {
    hide DecodeDigits, IsPacket, EncodeLen;
    DecodeEncodedDigits(|body|, body, MAX_LEN_DIGITS);
    EncodeLenSize(|body|);
    FieldIsPacket(first, EncodeLen(|body|), body);
  }

  predicate IsPublish(p: seq<byte>) {
    p != [] && p[0] / 16 * 16 == MQTT_PUBLISH
  }

  /** The packets of type PUBLISH, in order. */
  function PublishPackets(ps: seq<seq<byte>>): seq<seq<byte>> {
    if ps == [] then []
    else
      var last := ps[|ps| - 1];
      PublishPackets(ps[..|ps| - 1]) + (if IsPublish(last) then [last] else [])
  }

  /** All others, in order. */
  function OtherPackets(ps: seq<seq<byte>>): seq<seq<byte>> {
    if ps == [] then []
    else
      var last := ps[|ps| - 1];
      OtherPackets(ps[..|ps| - 1]) + (if IsPublish(last) then [] else [last])
  }
}
