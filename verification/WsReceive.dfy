/** Receiving one WebSocket frame in pieces: the DATA events it is reported with, and the answer to a
    PING (section 5.5.3 of RFC 6455). */
module WsReceive {
  import opened Bytes
  import opened WsSend

  /** A frame that is arriving. */
  datatype Incoming = Nothing | Incoming(fin: bool, code: nat, payload: seq<byte>)

  /** A DATA event: part of a payload, and where in the payload it belongs. */
  datatype DataEvent = DataEvent(bytes: seq<byte>, offset: nat, payloadLen: nat, fin: bool, code: nat)

  /** Gives the payload of `frame` from `pos` on in pieces of any size up to the buffer, or fails. `stalls`
      is how often it still times out inside the frame. */
  class Source {
    var frame: Incoming
    var pos: nat
    var stalls: nat

    ghost predicate Valid()
      reads this
    {
      frame.Incoming? ==> pos <= |frame.payload|
    }

    /** esp_transport_read; zero bytes are a timeout, with nothing arriving or inside a frame, or the end of
        a frame without payload. */
    method Read(buf: array<byte>) returns (rlen: int)
      requires Valid() && buf.Length > 0
      modifies this, buf
      ensures Valid() && frame == old(frame) && stalls <= old(stalls)
      ensures rlen < 0 ==> pos == old(pos)
      ensures rlen >= 0 && frame.Nothing? ==> rlen == 0 && pos == old(pos)
      ensures rlen >= 0 && frame.Incoming? ==>
                && rlen <= buf.Length && pos == old(pos) + rlen
                && (rlen == 0 ==> old(pos) == |frame.payload| || (old(pos) > 0 && stalls < old(stalls)))
                && buf[..] == frame.payload[old(pos)..pos] + old(buf[..])[rlen..]
    {
      var fails: bool := *;
      if fails {
        return -1;
      }
      var late: bool := *;
      late := late && frame.Incoming? && 0 < pos < |frame.payload| && stalls > 0;
      if late {
        stalls := stalls - 1;
      }
      if frame.Nothing? || pos == |frame.payload| || late {
        assert frame.Incoming? ==> frame.payload[pos..pos] == [] && buf[..] == [] + buf[..][0..];
        return 0;
      }
      rlen :| 1 <= rlen <= buf.Length && rlen <= |frame.payload| - pos;
      Fill(buf, frame.payload[pos..pos + rlen]);
      pos := pos + rlen;
    }

    /** The piece goes to the start of the buffer. */
    static method Fill(buf: array<byte>, piece: seq<byte>)
      requires |piece| <= buf.Length
      modifies buf
      ensures buf[..] == piece + old(buf[..])[|piece|..]
    {
      forall i | 0 <= i < |piece| {
        buf[i] := piece[i];
      }
    }
  }

  /** A buffer into whose start the pieces have been written, one over the other. */
  function Overlay(buf: seq<byte>, pieces: seq<seq<byte>>): (b: seq<byte>)
    requires forall p :: p in pieces ==> |p| <= |buf|
    ensures |b| == |buf|
    decreases |pieces|
  {
    if pieces == [] then buf
    else
      var last := pieces[|pieces| - 1];
      last + Overlay(buf, pieces[..|pieces| - 1])[|last|..]
  }

  function Total(pieces: seq<seq<byte>>): seq<byte>
    decreases |pieces|
  {
    if pieces == [] then [] else Total(pieces[..|pieces| - 1]) + pieces[|pieces| - 1]
  }

  function PiecesOf(es: seq<DataEvent>): (ps: seq<seq<byte>>)
    ensures |ps| == |es| && forall i :: 0 <= i < |es| ==> ps[i] == es[i].bytes
  {
    seq(|es|, i requires 0 <= i < |es| => es[i].bytes)
  }

  /** The events tile the payload from its start: each begins where the one before ended. */
  predicate Tiles(es: seq<DataEvent>, frame: Incoming)
    requires frame.Incoming?
    decreases |es|
  {
    if es == [] then true
    else
      var e, before := es[|es| - 1], es[..|es| - 1];
      && Tiles(before, frame)
      && e.offset == |Total(PiecesOf(before))|
      && e.offset + |e.bytes| <= |frame.payload|
      && e.bytes == frame.payload[e.offset..e.offset + |e.bytes|]
      && e.payloadLen == |frame.payload| && e.fin == frame.fin && e.code == frame.code
  }

  lemma {:induction false} TilesTotal(es: seq<DataEvent>, frame: Incoming)
    requires frame.Incoming? && Tiles(es, frame)
    ensures |Total(PiecesOf(es))| <= |frame.payload|
    ensures Total(PiecesOf(es)) == frame.payload[..|Total(PiecesOf(es))|]
    decreases |es|
  {
    if es != [] {
      var e, before := es[|es| - 1], es[..|es| - 1];
      TilesTotal(before, frame);
      assert PiecesOf(es)[..|es| - 1] == PiecesOf(before);
      assert frame.payload[..e.offset] + e.bytes == frame.payload[..e.offset + |e.bytes|];
    }
  }

  /** The reads so far: their events tile the payload from its start up to `pos`, and the buffer holds
      their pieces one over the other. */
  ghost predicate ReadSoFar(es: seq<DataEvent>, frame: Incoming, pos: nat, buf0: seq<byte>, buf: seq<byte>)
    requires frame.Incoming?
  {
    && Tiles(es, frame) && pos == |Total(PiecesOf(es))|
    && (forall p :: p in PiecesOf(es) ==> |p| <= |buf0|)
    && buf == Overlay(buf0, PiecesOf(es))
  }

  lemma PiecesMore(es: seq<DataEvent>, e: DataEvent)
    ensures (es + [e])[..|es|] == es
    ensures PiecesOf(es + [e]) == PiecesOf(es) + [e.bytes]
    ensures PiecesOf(es + [e])[..|es|] == PiecesOf(es)
    ensures Total(PiecesOf(es + [e])) == Total(PiecesOf(es)) + e.bytes
  {
  }

  lemma OneMore(es: seq<DataEvent>, frame: Incoming, pos: nat, buf0: seq<byte>, buf: seq<byte>, n: nat)
    requires frame.Incoming? && ReadSoFar(es, frame, pos, buf0, buf)
    requires pos + n <= |frame.payload| && n <= |buf0|
    ensures var e := DataEvent(frame.payload[pos..pos + n], pos, |frame.payload|, frame.fin, frame.code);
            && ReadSoFar(es + [e], frame, pos + n, buf0, frame.payload[pos..pos + n] + buf[n..])
            && Tiles(es + [e], frame)
  {
    hide Total, PiecesOf, Tiles, Overlay;
    var e := DataEvent(frame.payload[pos..pos + n], pos, |frame.payload|, frame.fin, frame.code);
    PiecesMore(es, e);
    TilesMore(es, e, frame);
    OverlayMore(buf0, PiecesOf(es), e.bytes);
  }

  lemma TilesMore(es: seq<DataEvent>, e: DataEvent, frame: Incoming)
    requires frame.Incoming? && Tiles(es, frame) && e.offset == |Total(PiecesOf(es))|
    requires e.offset + |e.bytes| <= |frame.payload|
    requires e.bytes == frame.payload[e.offset..e.offset + |e.bytes|]
    requires e.payloadLen == |frame.payload| && e.fin == frame.fin && e.code == frame.code
    ensures Tiles(es + [e], frame)
  {
    hide PiecesOf, Total;
    assert (es + [e])[..|es|] == es;
  }

  lemma OverlayMore(buf: seq<byte>, ps: seq<seq<byte>>, last: seq<byte>)
    requires (forall p :: p in ps ==> |p| <= |buf|) && |last| <= |buf|
    ensures Overlay(buf, ps + [last]) == last + Overlay(buf, ps)[|last|..]
  {
    assert (ps + [last])[..|ps|] == ps;
  }

  class Receiver {
    const source: Source
    const rxBuffer: array<byte>
    var payloadLen: nat
    var payloadOffset: nat
    var lastFin: bool
    var lastOpcode: nat
    var waitForPong: bool
    var closing: bool
    var events: seq<DataEvent>
    var sent: seq<Frame>

    constructor (source: Source, bufferSize: nat)
      requires bufferSize > 0
      ensures this.source == source && fresh(rxBuffer) && rxBuffer.Length == bufferSize
      ensures events == [] && sent == [] && !closing && !waitForPong
    {
      this.source := source;
      rxBuffer := new byte[bufferSize];
      payloadLen, payloadOffset, lastFin, lastOpcode := 0, 0, false, CONT;
      waitForPong, closing, events, sent := false, false, [], [];
    }

    /** One read of the loop, and its DATA event. */
    method ReadPiece(ghost es: seq<DataEvent>, ghost buf0: seq<byte>) returns (rlen: int, ghost es': seq<DataEvent>)
      requires source.Valid() && rxBuffer.Length == |buf0| > 0
      requires source.frame.Incoming? ==>
                 ReadSoFar(es, source.frame, source.pos, buf0, rxBuffer[..]) && payloadOffset == source.pos
      modifies this, source, rxBuffer
      ensures source.Valid() && source.frame == old(source.frame)
      ensures sent == old(sent) && waitForPong == old(waitForPong) && closing == old(closing)
      ensures rlen < 0 || source.frame.Nothing? ==> es' == es && events == old(events)
      ensures rlen >= 0 && source.frame.Incoming? ==>
                && ReadSoFar(es', source.frame, source.pos, buf0, rxBuffer[..]) && Tiles(es', source.frame)
                && |es'| == |es| + 1 && es' == es + [es'[|es|]] && events == old(events) + [es'[|es|]]
                && payloadOffset == source.pos == old(source.pos) + rlen
                && payloadLen == |source.frame.payload| && lastOpcode == source.frame.code
                && (rlen == 0 ==> source.pos == payloadLen || (source.pos > 0 && source.stalls < old(source.stalls)))
    {
      hide Tiles, Overlay, Total, ReadSoFar;
      es' := es;
      ghost var pos, buf := source.pos, rxBuffer[..];
      rlen := source.Read(rxBuffer);
      if rlen < 0 || source.frame.Nothing? {
        return;
      }
      payloadLen, lastFin, lastOpcode := |source.frame.payload|, source.frame.fin, source.frame.code;
      var e := DataEvent(rxBuffer[..rlen], payloadOffset, payloadLen, lastFin, lastOpcode);
      assert e.bytes == source.frame.payload[pos..pos + rlen];
      OneMore(es, source.frame, pos, buf0, buf, rlen);
      events, es' := events + [e], es + [e];
      payloadOffset := payloadOffset + rlen;
    }

    /** The read loop: `done` says that a whole frame has been read, otherwise `ok` tells a timeout from
        a failure. Every piece is reported as it comes. */
    method ReadFrame() returns (ok: bool, done: bool, ghost es: seq<DataEvent>)
      requires source.Valid() && source.pos == 0 && rxBuffer.Length > 0
      modifies this, source, rxBuffer
      ensures source.frame == old(source.frame) && events == old(events) + es
      ensures sent == old(sent) && waitForPong == old(waitForPong) && closing == old(closing)
      ensures source.frame.Nothing? ==> !done && es == []
      ensures source.frame.Incoming? ==>
                && Tiles(es, source.frame) && (ok <==> done)
                && (done ==>
                      && ReadSoFar(es, source.frame, payloadLen, old(rxBuffer[..]), rxBuffer[..])
                      && payloadLen == |source.frame.payload| && lastOpcode == source.frame.code)
    {
      hide Tiles, Overlay, Total, ReadSoFar;
      payloadOffset, es := 0, [];
      if source.frame.Incoming? {
        NoneYet(source.frame, rxBuffer[..]);
      }
      while true
        invariant source.Valid() && source.frame == old(source.frame) && events == old(events) + es
        invariant sent == old(sent) && waitForPong == old(waitForPong) && closing == old(closing)
        invariant source.frame.Nothing? ==> es == []
        invariant source.frame.Incoming? ==>
                    && ReadSoFar(es, source.frame, source.pos, old(rxBuffer[..]), rxBuffer[..])
                    && Tiles(es, source.frame)
                    && payloadOffset == source.pos && (es != [] ==> source.pos < |source.frame.payload|)
        decreases if source.frame.Incoming? then |source.frame.payload| - source.pos else 0, source.stalls
      {
        ghost var es0 := es;
        var rlen;
        rlen, es := ReadPiece(es, old(rxBuffer[..]));
        if rlen < 0 {
          return false, false, es;
        }
        if source.frame.Nothing? {
          return true, false, es;
        }
        assert events == old(events) + es0 + [es[|es0|]];
        if payloadOffset >= payloadLen {
          return true, true, es;
        }
      }
    }

    /** What lies behind the receive buffer in memory, which nothing is known about. */
    method MemoryBehind(n: nat) returns (m: seq<byte>)
      ensures |m| == n
    {
      m := Zeros(n);
    }

    /** esp_websocket_client_recv. A PING longer than the receive buffer is answered with what lies behind
        the buffer. */
    method Recv() returns (ok: bool, ghost es: seq<DataEvent>, ghost behind: seq<byte>)
      requires source.Valid() && source.pos == 0 && rxBuffer.Length > 0
      modifies this, source, rxBuffer
      ensures source.frame == old(source.frame) && events == old(events) + es
      ensures source.frame.Nothing? || !ok ==>
                sent == old(sent) && waitForPong == old(waitForPong) && closing == old(closing)
      ensures source.frame.Nothing? ==> es == []
      ensures source.frame.Incoming? ==>
                && Tiles(es, source.frame)
                && (ok ==> Total(PiecesOf(es)) == source.frame.payload)
                && (ok ==> forall p :: p in PiecesOf(es) ==> |p| <= rxBuffer.Length)
      ensures ok && source.frame.Incoming? ==>
                var code := source.frame.code;
                && waitForPong == (old(waitForPong) && code != PONG)
                && closing == (old(closing) || code == CLOSE)
                && |behind| == (if |source.frame.payload| > rxBuffer.Length then |source.frame.payload| - rxBuffer.Length else 0)
                && (code != PING ==> sent == old(sent))
                && (code == PING ==> sent == old(sent) + [Frame(true, PONG, Echo(old(rxBuffer[..]), behind, PiecesOf(es)))])
    {
      var done;
      behind := [];
      ok, done, es := ReadFrame();
      if !done {
        return;
      }
      TilesTotal(es, source.frame);
      assert source.frame.payload[..|source.frame.payload|] == source.frame.payload;
      var excess := if payloadLen > rxBuffer.Length then payloadLen - rxBuffer.Length else 0;
      var memory := MemoryBehind(excess);
      behind := memory;
      if lastOpcode == PING {
        var data := if payloadLen == 0 then [] else (rxBuffer[..] + memory)[..payloadLen];
        assert data == Echo(old(rxBuffer[..]), behind, PiecesOf(es));
        sent := sent + [Frame(true, PONG, data)];
      } else if lastOpcode == PONG {
        waitForPong := false;
      } else if lastOpcode == CLOSE {
        closing := true;
      }
    }
  }

  lemma NoneYet(frame: Incoming, buf: seq<byte>)
    requires frame.Incoming?
    ensures ReadSoFar([], frame, 0, buf, buf) && Tiles([], frame)
  {
  }

  /** The payload of the PONG that answers a PING read in these pieces: the start of the buffer, and of the
      memory behind it. */
  function Echo(buf: seq<byte>, behind: seq<byte>, pieces: seq<seq<byte>>): seq<byte>
    requires forall p :: p in pieces ==> |p| <= |buf|
    requires |Total(pieces)| <= |buf| + |behind|
  {
    (Overlay(buf, pieces) + behind)[..|Total(pieces)|]
  }

  /** The sizes of the reads of a payload of length n, each within a buffer of the given size. */
  predicate Cut(sizes: seq<nat>, n: nat, size: nat) {
    Sum(sizes) == n && sizes != [] && forall i :: 0 <= i < |sizes| ==> sizes[i] <= size
  }

  function Sum(sizes: seq<nat>): nat
    decreases |sizes|
  {
    if sizes == [] then 0 else Sum(sizes[..|sizes| - 1]) + sizes[|sizes| - 1]
  }

  function CutUp(payload: seq<byte>, sizes: seq<nat>): (ps: seq<seq<byte>>)
    requires Sum(sizes) <= |payload|
    ensures |ps| == |sizes| && forall i :: 0 <= i < |ps| ==> |ps[i]| == sizes[i]
    ensures |Total(ps)| == Sum(sizes) && Total(ps) == payload[..Sum(sizes)]
    decreases |sizes|
  {
    if sizes == [] then []
    else
      var n := |sizes| - 1;
      var before := CutUp(payload, sizes[..n]);
      var ps := before + [payload[Sum(sizes[..n])..Sum(sizes)]];
      assert ps[..n] == before;
      ps
  }

  lemma CutUpMore(payload: seq<byte>, sizes: seq<nat>)
    requires Sum(sizes) <= |payload| && sizes != []
    ensures var n := |sizes| - 1;
            && Sum(sizes) == Sum(sizes[..n]) + sizes[n]
            && CutUp(payload, sizes) == CutUp(payload, sizes[..n]) + [payload[Sum(sizes[..n])..Sum(sizes)]]
  {
  }

  /** What the buffer holds after reads that are empty after the one at k: at its start, that piece. */
  lemma {:induction false} LastPieceStays(payload: seq<byte>, sizes: seq<nat>, k: nat, buf: seq<byte>)
    requires Sum(sizes) <= |payload| && k < |sizes| && (forall i :: 0 <= i < |sizes| ==> sizes[i] <= |buf|)
    requires forall i :: k < i < |sizes| ==> sizes[i] == 0
    ensures Sum(sizes[..k]) + sizes[k] == Sum(sizes)
    ensures var b, start := Overlay(buf, CutUp(payload, sizes)), Sum(sizes[..k]);
            b[..sizes[k]] == payload[start..start + sizes[k]]
    decreases |sizes|
  {
    hide CutUp, Sum, Overlay, Total;
    var n := |sizes| - 1;
    CutUpMore(payload, sizes);
    var before, last := CutUp(payload, sizes[..n]), payload[Sum(sizes[..n])..Sum(sizes)];
    OverlayMore(buf, before, last);
    if k < n {
      LastPieceStays(payload, sizes[..n], k, buf);
      assert sizes[..n][..k] == sizes[..k];
      assert last == [];
    }
  }

  lemma {:induction false} LastNonEmpty(sizes: seq<nat>) returns (k: nat)
    requires Sum(sizes) > 0
    ensures k < |sizes| && sizes[k] > 0 && forall i :: k < i < |sizes| ==> sizes[i] == 0
    decreases |sizes|
  {
    var n := |sizes| - 1;
    if sizes[n] > 0 {
      k := n;
    } else {
      k := LastNonEmpty(sizes[..n]);
    }
  }

  /** Reads that no single one of which got the whole payload: the answer is wrong for some payload. */
  lemma SplitEchoWrong(sizes: seq<nat>, n: nat, buf: seq<byte>, behind: seq<byte>) returns (payload: seq<byte>)
    requires Cut(sizes, n, |buf|) && 0 < n <= |buf| + |behind| && |buf| > 0
    requires forall i :: 0 <= i < |sizes| ==> sizes[i] != n
    ensures |payload| == n && Echo(buf, behind, CutUp(payload, sizes)) != payload
  {
    hide CutUp, Overlay, Total, Sum;
    var k := LastNonEmpty(sizes);
    payload := [1] + Zeros(n - 1);
    LastPieceStays(payload, sizes, k, buf);
    var start := Sum(sizes[..k]);
    var b := Overlay(buf, CutUp(payload, sizes));
    assert 0 < start < n;
    assert b[0] == b[..sizes[k]][0] == payload[start] == 0;
    assert payload[..n] == payload && (b + behind)[..n][0] == 0;
  }

  lemma {:induction false} SumBound(sizes: seq<nat>, i: nat)
    requires i < |sizes|
    ensures sizes[i] <= Sum(sizes)
    ensures sizes[i] == Sum(sizes) ==> forall j :: 0 <= j < |sizes| && j != i ==> sizes[j] == 0
    decreases |sizes|
  {
    var n := |sizes| - 1;
    if i < n {
      SumBound(sizes[..n], i);
    } else {
      forall j | 0 <= j < n && sizes[i] == Sum(sizes) ensures sizes[j] == 0 {
        SumBound(sizes[..n], j);
      }
    }
  }

  /** A PING of any length is answered with its own payload, as section 5.5.3 of RFC 6455 asks, for every
      payload of that length and whatever lies behind the buffer, if and only if one read got all of it. */
  lemma PongEchoesPing(sizes: seq<nat>, n: nat, buf: seq<byte>, behind: seq<byte>)
    requires Cut(sizes, n, |buf|) && n <= |buf| + |behind| && |buf| > 0
    ensures (forall payload: seq<byte> :: |payload| == n ==> Echo(buf, behind, CutUp(payload, sizes)) == payload)
            <==> exists i :: 0 <= i < |sizes| && sizes[i] == n
  {
    hide CutUp, Overlay, Total, Sum;
    if i :| 0 <= i < |sizes| && sizes[i] == n {
      SumBound(sizes, i);
      forall payload: seq<byte> | |payload| == n ensures Echo(buf, behind, CutUp(payload, sizes)) == payload {
        LastPieceStays(payload, sizes, i, buf);
        assert payload[..n] == payload;
        assert (Overlay(buf, CutUp(payload, sizes)) + behind)[..n] == Overlay(buf, CutUp(payload, sizes))[..n];
      }
    } else {
      if n == 0 { SumBound(sizes, 0); }
      var payload := SplitEchoWrong(sizes, n, buf, behind);
    }
  }
}
