/** The broker's per-connection task: what it makes of a byte stream, as a function of the stream,
    and the loops that compute it from a socket delivering that stream in arbitrary pieces. */
module PacketHandler {
  import opened Bytes
  import opened Socket
  import opened RemainingLength

  const MQTT_CONNECT: byte := 0x10
  const MQTT_CONNACK: byte := 0x20
  const MQTT_PUBLISH: byte := 0x30
  const MQTT_SUBACK: byte := 0x90
  const MQTT_PINGREQ: byte := 0xC0
  const MQTT_PINGRESP: byte := 0xD0
  const MQTT_DISCONNECT: byte := 0xE0

  /** The value the SUBSCRIBE arm compares the masked type with, and the one that would reach it. */
  const SUBSCRIBE_AS_WRITTEN: byte := 0x82
  const SUBSCRIBE_AS_INTENDED: byte := 0x80

  const MAX_TOPIC_LEN := 64
  const MAX_SUBS_PER_CLIENT := 8
  const CLIENT_ID_LEN := 32
  const JSON_BUF_SIZE := 750
  const UNKNOWN_ID: seq<byte> := [117, 110, 107, 110, 111, 119, 110]

  /** What the task asks of the rest of the broker, in order. Texts are C strings. */
  datatype Action =
    | SetClientId(id: seq<byte>)
    | AddFilter(filter: seq<byte>)
    | Publish(topic: seq<byte>, payload: seq<byte>)
    | Reply(bytes: seq<byte>)

  /** (hi << 8) | lo */
  function U16(hi: byte, lo: byte): (r: u32)
    ensures r < 0x1_0000
  {
    var h: int := hi;
    h * 256 + lo
  }

  datatype StrResult = Str(len: nat, text: seq<byte>, rest: seq<byte>) | NoStr

  /** A length-prefixed string (section 1.5.3 of MQTT 3.1.1) for a buffer of `max` bytes: one that
      does not fit is consumed and comes out empty. */
  function ReadStr(s: seq<byte>, max: nat): (r: StrResult)
    ensures r.Str? ==> |s| == 2 + r.len + |r.rest| && r.len < 0x1_0000
  {
    if |s| < 2 then NoStr
    else
      var len := U16(s[0], s[1]);
      if |s| < 2 + len then NoStr
      else Str(len, if len >= max then [] else s[2..2 + len], s[2 + len..])
  }

  /** How one packet ends: the loop goes on at `rest` holding `subs` filters, or leaves. */
  datatype Outcome =
    | Next(acts: seq<Action>, subs: nat, rest: seq<byte>)
    | Stop(acts: seq<Action>, rest: seq<byte>)

  function ConnectEnd(id: seq<byte>, s: seq<byte>, left: u32, subs: nat): (o: Outcome)
    ensures o.Next? ==> |o.rest| <= |s| && o.subs == subs
  {
    if left > |s| then Stop([], [])
    else Next([SetClientId(id), Reply([MQTT_CONNACK, 2, 0, 0])], subs, s[left..])
  }

  /** A stream and the part of the packet's remaining length that is still to be consumed. */
  datatype Unread = Unread(s: seq<byte>, left: u32)

  /** The fixed part of a CONNECT variable header: 7 bytes of protocol name and level, then 3 more. */
  function ConnectHeader(s: seq<byte>, len: u32): Unread {
    var u := if len >= 7 then Unread(AfterExact(s, 7), len - 7) else Unread(s, len);
    if u.left >= 3 then Unread(AfterExact(u.s, 3), u.left - 3) else u
  }

  function ConnectArm(s: seq<byte>, len: u32, subs: nat): (o: Outcome)
    ensures o.Next? ==> |o.rest| <= |s| && o.subs == subs
  {
    var u := ConnectHeader(s, len);
    if u.left >= 2 then
      match ReadStr(u.s, CLIENT_ID_LEN)
      case NoStr => Stop([], [])
      case Str(cl, text, rest) => ConnectEnd(CStr(text), rest, Sub32(u.left, 2 + cl), subs)
    else ConnectEnd(UNKNOWN_ID, u.s, u.left, subs)
  }

  datatype SubResult = SubResult(ok: bool, filters: seq<seq<byte>>, codes: seq<byte>, left: u32, rest: seq<byte>)

  /** The loop over the filters of a SUBSCRIBE, `subs` slots of the client being taken. */
  function SubLoop(s: seq<byte>, left: u32, subs: nat): (r: SubResult)
    ensures |r.codes| == |r.filters|
    ensures subs <= MAX_SUBS_PER_CLIENT ==> subs + |r.filters| <= MAX_SUBS_PER_CLIENT
    ensures |r.rest| <= |s| && (!r.ok ==> r.rest == [])
    decreases MAX_SUBS_PER_CLIENT - subs
  {
    if left <= 2 || subs >= MAX_SUBS_PER_CLIENT then SubResult(true, [], [], left, s)
    else match ReadStr(s, MAX_TOPIC_LEN)
      case NoStr => SubResult(false, [], [], left, [])
      case Str(tl, text, s1) =>
        if s1 == [] then SubResult(false, [], [], left, [])
        else
          var r := SubLoop(s1[1..], Sub32(Sub32(left, 2 + tl), 1), subs + 1);
          SubResult(r.ok, [CStr(text)] + r.filters, [s1[0] % 2] + r.codes, r.left, r.rest)
  }

  function Prepend(fs: seq<seq<byte>>, codes: seq<byte>, r: SubResult): SubResult {
    SubResult(r.ok, fs + r.filters, codes + r.codes, r.left, r.rest)
  }

  lemma SubLoopEnd(s: seq<byte>, left: u32, subs: nat)
    ensures left <= 2 || subs >= MAX_SUBS_PER_CLIENT ==> SubLoop(s, left, subs) == SubResult(true, [], [], left, s)
    ensures left > 2 && subs < MAX_SUBS_PER_CLIENT && (var one := ReadStr(s, MAX_TOPIC_LEN); one.NoStr? || one.rest == []) ==>
              SubLoop(s, left, subs) == SubResult(false, [], [], left, [])
  {
  }

  lemma SubLoopStep(s: seq<byte>, left: u32, subs: nat, fs: seq<seq<byte>>, codes: seq<byte>, one: StrResult)
    requires left > 2 && subs < MAX_SUBS_PER_CLIENT
    requires one == ReadStr(s, MAX_TOPIC_LEN) && one.Str? && one.rest != []
    ensures Prepend(fs, codes, SubLoop(s, left, subs))
            == Prepend(fs + [CStr(one.text)], codes + [one.rest[0] % 2],
                       SubLoop(one.rest[1..], Sub32(Sub32(left, 2 + one.len), 1), subs + 1))
  {
    var r := SubLoop(one.rest[1..], Sub32(Sub32(left, 2 + one.len), 1), subs + 1);
    assert fs + ([CStr(one.text)] + r.filters) == fs + [CStr(one.text)] + r.filters;
    assert codes + ([one.rest[0] % 2] + r.codes) == codes + [one.rest[0] % 2] + r.codes;
  }

  function AddFilters(fs: seq<seq<byte>>): (acts: seq<Action>)
    ensures |acts| == |fs| && forall i :: 0 <= i < |fs| ==> acts[i] == AddFilter(fs[i])
  {
    seq(|fs|, i requires 0 <= i < |fs| => AddFilter(fs[i]))
  }

  lemma AddFiltersAppend(log: seq<Action>, fs: seq<seq<byte>>, f: seq<byte>)
    ensures log + AddFilters(fs) + [AddFilter(f)] == log + AddFilters(fs + [f])
  {
    assert AddFilters(fs) + [AddFilter(f)] == AddFilters(fs + [f]);
  }

  /** The two bytes of a packet identifier; an exhausted stream leaves zeros. */
  function PacketId(s: seq<byte>): (id: seq<byte>)
    ensures |id| == 2
  {
    var k := Min(2, |s|);
    s[..k] + Zeros(2 - k)
  }

  function SubscribeArm(s: seq<byte>, len: u32, subs: nat): (o: Outcome)
    ensures o.Next? ==> |o.rest| <= |s| && (subs <= MAX_SUBS_PER_CLIENT ==> o.subs <= MAX_SUBS_PER_CLIENT)
  {
    var r := SubLoop(AfterExact(s, 2), Sub32(len, 2), subs);
    var acts := AddFilters(r.filters);
    if !r.ok || r.left > |r.rest| then Stop(acts, [])
    else
      Next(acts + [Reply([MQTT_SUBACK] + EncodeLen(2 + |r.codes|) + PacketId(s)), Reply(r.codes)],
           subs + |r.filters|, r.rest[r.left..])
  }

  function PublishArm(s: seq<byte>, first: byte, len: u32, subs: nat): (o: Outcome)
    ensures o.Next? ==> |o.rest| <= |s| && o.subs == subs
  {
    match ReadStr(s, MAX_TOPIC_LEN)
    case NoStr => Stop([], [])
    case Str(tl, text, s1) =>
      var len1 := Sub32(len, 2 + tl);
      var hasId := first / 2 % 4 > 0 && len1 >= 2;
      var s2 := if hasId then AfterExact(s1, 2) else s1;
      var len2 := if hasId then len1 - 2 else len1;
      var pl := Min(len2, JSON_BUF_SIZE - 1);
      if pl > |s2| then Stop([], [])
      else Next([Publish(CStr(text), CStr(s2[..pl]))], subs, s2[pl..])
  }

  /** One turn of the packet loop. */
  function Iterate(s: seq<byte>, subs: nat, subscribeType: byte): (o: Outcome)
    ensures o.Next? ==> |o.rest| < |s|
    ensures subs <= MAX_SUBS_PER_CLIENT && o.Next? ==> o.subs <= MAX_SUBS_PER_CLIENT
  {
    if s == [] then Stop([], [])
    else match DecodeLen(s[1..])
      case NoLen(rest) => Stop([], rest)
      case Len(len, rest) =>
        var pktType := s[0] / 16 * 16;
        if pktType == MQTT_CONNECT then ConnectArm(rest, len, subs)
        else if pktType == subscribeType then SubscribeArm(rest, len, subs)
        else if pktType == MQTT_PINGREQ then Next([Reply([MQTT_PINGRESP, 0])], subs, rest)
        else if pktType == MQTT_DISCONNECT then Stop([], rest)
        else if pktType == MQTT_PUBLISH then PublishArm(rest, s[0], len, subs)
        else if len > |rest| then Stop([], [])
        else Next([], subs, rest[len..])
  }

  /** Everything the task does with a stream, and what it leaves unread. */
  datatype Handled = Handled(acts: seq<Action>, rest: seq<byte>)

  function Handle(s: seq<byte>, subs: nat, subscribeType: byte): Handled
    decreases |s|
  {
    match Iterate(s, subs, subscribeType)
    case Stop(acts, rest) => Handled(acts, rest)
    case Next(acts, subs', rest) =>
      var h := Handle(rest, subs', subscribeType);
      Handled(acts + h.acts, h.rest)
  }

  lemma HandleStep(s: seq<byte>, subs: nat, t: byte)
    ensures var o := Iterate(s, subs, t);
            Handle(s, subs, t) == if o.Stop? then Handled(o.acts, o.rest)
                                  else var h := Handle(o.rest, o.subs, t); Handled(o.acts + h.acts, h.rest)
  {
  }

  method ReadString(sock: Socket, out: array<byte>, maxLen: nat) returns (len: int)
    requires 1 <= maxLen <= out.Length
    modifies sock, out
    ensures match ReadStr(old(sock.inbox), maxLen)
            case NoStr => len == -1 && sock.inbox == []
            case Str(n, text, rest) => len == n && sock.inbox == rest && CStr(out[..]) == CStr(text)
  {
    ghost var s := sock.inbox;
    var lb := new byte[2];
    var ok := ReadExact(sock, lb, 2);
    if !ok {
      return -1;
    }
    assert lb[..2] == s[..2];
    assert lb[0] == s[0] && lb[1] == s[1];
    len := U16(lb[0], lb[1]);
    if len >= maxLen {
      ok := Drain(sock, len, 8);
      if !ok {
        return -1;
      }
      out[0] := 0;
      assert out[..] == [] + [0] + out[1..];
      CStrOfTerminated([], out[1..]);
      return;
    }
    ok := ReadExact(sock, out, len);
    if !ok {
      return -1;
    }
    ghost var text := out[..len];
    out[len] := 0;
    assert out[..] == text + [0] + out[len + 1..];
    CStrOfTerminated(text, out[len + 1..]);
    assert text == s[2..2 + len];
  }

  /** Read a string into a local buffer of `size` bytes, for use as a C string. */
  method ReadText(sock: Socket, size: nat) returns (len: int, text: seq<byte>)
    requires 1 <= size
    modifies sock
    ensures match ReadStr(old(sock.inbox), size)
            case NoStr => len == -1 && sock.inbox == []
            case Str(n, t, rest) => len == n && sock.inbox == rest && text == CStr(t)
  {
    var buf := new byte[size];
    len := ReadString(sock, buf, size);
    text := CStr(buf[..]);
  }

  /** Read `len` bytes into a local buffer whose contents are not used, whatever the outcome. */
  method ReadIgnored(sock: Socket, len: nat)
    modifies sock
    ensures sock.inbox == AfterExact(old(sock.inbox), len)
  {
    var buf := new byte[len];
    var _ := ReadExact(sock, buf, len);
  }

  /** Read a payload of `len` bytes into a local buffer, and terminate it. */
  method ReadPayload(sock: Socket, len: nat, size: nat) returns (ok: bool, payload: seq<byte>)
    requires len < size
    modifies sock
    ensures ok == (len <= |old(sock.inbox)|)
    ensures sock.inbox == AfterExact(old(sock.inbox), len)
    ensures ok ==> payload == CStr(old(sock.inbox)[..len])
  {
    ghost var s := sock.inbox;
    var pp := new byte[size];
    ok := ReadExact(sock, pp, len);
    ghost var raw := pp[..len];
    pp[len] := 0;
    assert pp[..] == raw + [0] + pp[len + 1..];
    CStrOfTerminated(raw, pp[len + 1..]);
    payload := CStr(pp[..]);
  }

  /** The locals of one client task that outlive a packet. `log` is what it has asked for so far,
      `subs` the filters in its slot of the client table, which no other task changes while the
      task owns the slot. */
  class Handler {
    const sock: Socket
    const subscribeType: byte
    var subs: nat
    var log: seq<Action>

    constructor (sock: Socket, subscribeType: byte)
      ensures this.sock == sock && this.subscribeType == subscribeType
      ensures subs == 0 && log == []
    {
      this.sock, this.subscribeType := sock, subscribeType;
      subs, log := 0, [];
    }

    /** The task ended up as `o` says, having started from `subs0` filters and `log0`. */
    ghost predicate Reached(o: Outcome, ok: bool, log0: seq<Action>, subs0: nat)
      reads this, sock
    {
      && ok == o.Next? && (o.Next? ==> subs == o.subs)
      && log == log0 + o.acts && sock.inbox == o.rest
      && subs0 <= subs <= MAX_SUBS_PER_CLIENT
    }

    method Do(a: Action)
      modifies this
      ensures log == old(log) + [a] && subs == old(subs)
    {
      log := log + [a];
    }

    method ReadConnectHeader(remLen: u32) returns (toRead: u32)
      modifies sock
      ensures Unread(sock.inbox, toRead) == ConnectHeader(old(sock.inbox), remLen)
    {
      toRead := remLen;
      if toRead >= 7 {
        ReadIgnored(sock, 7);
        toRead := toRead - 7;
      }
      if toRead >= 3 {
        ReadIgnored(sock, 3);
        toRead := toRead - 3;
      }
    }

    method Connect(remLen: u32) returns (ok: bool)
      requires subs <= MAX_SUBS_PER_CLIENT
      modifies this, sock
      ensures Reached(ConnectArm(old(sock.inbox), remLen, old(subs)), ok, old(log), old(subs))
    {
      var toRead := ReadConnectHeader(remLen);
      var clientId := UNKNOWN_ID;
      if toRead >= 2 {
        var cl, id := ReadText(sock, CLIENT_ID_LEN);
        if cl < 0 {
          return false;
        }
        clientId := id;
        toRead := Sub32(toRead, 2 + cl);
      }
      ok := Drain(sock, toRead, 32);
      if ok {
        Do(SetClientId(clientId));
        Do(Reply([MQTT_CONNACK, 2, 0, 0]));
      }
    }

    method ReadPacketId() returns (pid: seq<byte>)
      modifies sock
      ensures pid == PacketId(old(sock.inbox)) && sock.inbox == AfterExact(old(sock.inbox), 2)
    {
      ghost var k := Min(2, |sock.inbox|);
      var buf := new byte[2](i => 0);
      var _ := ReadExact(sock, buf, 2);
      pid := buf[..];
      assert pid == buf[..k] + buf[k..];
    }

    /** The filter loop. */
    method ReadFilters(len: u32) returns (ok: bool, remaining: u32, codes: seq<byte>)
      requires subs <= MAX_SUBS_PER_CLIENT
      modifies this, sock
      ensures var r := SubLoop(old(sock.inbox), len, old(subs));
              && ok == r.ok
              && log == old(log) + AddFilters(r.filters) && subs == old(subs) + |r.filters|
              && (ok ==> remaining == r.left && codes == r.codes)
              && sock.inbox == r.rest
    {
      hide SubLoop, CStr;
      ghost var all := SubLoop(sock.inbox, len, subs);
      ghost var r := all;
      ghost var filters: seq<seq<byte>> := [];
      ok, remaining, codes := true, len, [];
      while remaining > 2 && subs < MAX_SUBS_PER_CLIENT
        invariant subs == old(subs) + |filters| && subs <= MAX_SUBS_PER_CLIENT
        invariant log == old(log) + AddFilters(filters)
        invariant r == SubLoop(sock.inbox, remaining, subs) && all == Prepend(filters, codes, r)
        decreases MAX_SUBS_PER_CLIENT - subs
      {
        ghost var s, one := sock.inbox, ReadStr(sock.inbox, MAX_TOPIC_LEN);
        SubLoopEnd(s, remaining, subs);
        var tl, tf := ReadText(sock, MAX_TOPIC_LEN);
        if tl < 0 {
          return false, remaining, codes;
        }
        var left := Sub32(remaining, 2 + tl);
        var rq := sock.Recv(1);
        if rq == [] {
          return false, remaining, codes;
        }
        assert sock.inbox == one.rest[1..] && rq[0] == one.rest[0];
        r := SubLoop(sock.inbox, Sub32(left, 1), subs + 1);
        assert all == Prepend(filters + [tf], codes + [rq[0] % 2], r) by {
          SubLoopStep(s, remaining, subs, filters, codes, one);
        }
        remaining := Sub32(left, 1);
        Do(AddFilter(tf));
        subs := subs + 1;
        AddFiltersAppend(old(log), filters, tf);
        filters := filters + [tf];
        codes := codes + [rq[0] % 2];
      }
      SubLoopEnd(sock.inbox, remaining, subs);
    }

    method SendSuback(pid: seq<byte>, codes: seq<byte>)
      requires |pid| == 2 && |codes| <= MAX_SUBS_PER_CLIENT
      modifies this
      ensures log == old(log) + [Reply([MQTT_SUBACK] + EncodeLen(2 + |codes|) + pid), Reply(codes)]
      ensures subs == old(subs)
    {
      var suback := new byte[6];
      var rb := EncodeRemainingLen(2 + |codes|, suback, 1);
      suback[0] := MQTT_SUBACK;
      suback[1 + rb] := pid[0];
      suback[2 + rb] := pid[1];
      assert rb == 1 && suback[1..2] == EncodeLen(2 + |codes|);
      assert suback[..rb + 3] == [MQTT_SUBACK] + suback[1..2] + pid;
      Do(Reply(suback[..rb + 3]));
      Do(Reply(codes));
    }

    method Subscribe(remLen: u32) returns (ok: bool)
      requires subs <= MAX_SUBS_PER_CLIENT
      modifies this, sock
      ensures Reached(SubscribeArm(old(sock.inbox), remLen, old(subs)), ok, old(log), old(subs))
    {
      var pid := ReadPacketId();
      var remaining := Sub32(remLen, 2);
      var codes;
      ok, remaining, codes := ReadFilters(remaining);
      if !ok {
        return;
      }
      ok := Drain(sock, remaining, 8);
      if ok {
        SendSuback(pid, codes);
      }
    }

    method Publish(first: byte, remLen: u32) returns (ok: bool)
      requires subs <= MAX_SUBS_PER_CLIENT
      modifies this, sock
      ensures Reached(PublishArm(old(sock.inbox), first, remLen, old(subs)), ok, old(log), old(subs))
    {
      var toRead := remLen;
      var tl, topic := ReadText(sock, MAX_TOPIC_LEN);
      if tl < 0 {
        return false;
      }
      toRead := Sub32(toRead, 2 + tl);
      var pq := first / 2 % 4;
      if pq > 0 && toRead >= 2 {
        ReadIgnored(sock, 2);
        toRead := toRead - 2;
      }
      var pl := if toRead < JSON_BUF_SIZE - 1 then toRead else JSON_BUF_SIZE - 1;
      var payload;
      ok, payload := ReadPayload(sock, pl, JSON_BUF_SIZE);
      if ok {
        Do(Action.Publish(topic, payload));
      }
    }

    /** mqtt_client_handler_task, up to client_done: the split of the stream into pieces does not show. */
    method Run()
      requires subs <= MAX_SUBS_PER_CLIENT
      modifies this, sock
      ensures var h := Handle(old(sock.inbox), old(subs), subscribeType);
              log == old(log) + h.acts && sock.inbox == h.rest
      ensures old(subs) <= subs <= MAX_SUBS_PER_CLIENT
    {
      hide Iterate, Handle;
      ghost var all := Handle(sock.inbox, subs, subscribeType);
      ghost var log0 := log;
      ghost var done: seq<Action> := [];
      ghost var h := all;
      while true
        invariant log == log0 + done && old(subs) <= subs <= MAX_SUBS_PER_CLIENT
        invariant h == Handle(sock.inbox, subs, subscribeType)
        invariant done + h.acts == all.acts && h.rest == all.rest
        decreases |sock.inbox|
      {
        ghost var o := Iterate(sock.inbox, subs, subscribeType);
        HandleStep(sock.inbox, subs, subscribeType);
        var ok := Packet();
        assert log0 + done + o.acts == log0 + (done + o.acts);
        if !ok {
          return;
        }
        h := Handle(sock.inbox, subs, subscribeType);
        assert done + (o.acts + h.acts) == done + o.acts + h.acts;
        done := done + o.acts;
      }
    }

    /** The body of the packet loop. */
    method Packet() returns (ok: bool)
      requires subs <= MAX_SUBS_PER_CLIENT
      modifies this, sock
      ensures Reached(Iterate(old(sock.inbox), old(subs), subscribeType), ok, old(log), old(subs))
    {
      ghost var s := sock.inbox;
      var hdr := sock.Recv(1);
      if hdr == [] {
        return false;
      }
      assert sock.inbox == s[1..] && hdr[0] == s[0];
      var first := hdr[0];
      var remLen;
      ok, remLen := DecodeRemainingLen(sock);
      if !ok {
        return;
      }
      var pktType := first / 16 * 16;
      if pktType == MQTT_CONNECT {
        ok := Connect(remLen);
      } else if pktType == subscribeType {
        ok := Subscribe(remLen);
      } else if pktType == MQTT_PINGREQ {
        Do(Reply([MQTT_PINGRESP, 0]));
      } else if pktType == MQTT_DISCONNECT {
        ok := false;
      } else if pktType == MQTT_PUBLISH {
        ok := Publish(first, remLen);
      } else {
        ok := Drain(sock, remLen, 32);
      }
    }
  }
}
