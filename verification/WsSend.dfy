/** Sending on a WebSocket: the loop that cuts a message into frames no larger than the transmit
    buffer, and what a receiver following section 5.4 of RFC 6455 makes of the frames. */
module WsSend {
  import opened Bytes
  import opened Seqs

  const CONT := 0
  const TEXT := 1
  const BINARY := 2
  const CLOSE := 8
  const PING := 9
  const PONG := 10

  /** An opcode argument: the FIN flag and the opcode proper. */
  datatype Opcode = Opcode(fin: bool, code: nat)

  datatype Frame = Frame(fin: bool, code: nat, payload: seq<byte>)

  predicate NonZero(op: Opcode) {
    op.fin || op.code != 0
  }

  /** The frames of one call: all but the last carry a full buffer and no FIN, all but the first are
      continuations. A continuation call with nothing to send sends no frame. */
  function Fragments(op: Opcode, data: seq<byte>, size: nat): (fs: seq<Frame>)
    requires size > 0
    decreases |data|
  {
    if |data| > size then
      [Frame(false, op.code, data[..size])] + Fragments(Opcode(op.fin, CONT), data[size..], size)
    else if data == [] && !NonZero(op) then []
    else [Frame(op.fin, op.code, data)]
  }

  // The transport.

  /** What the transport will answer to the writes to come, one number each: a write of some bytes
      fails if it is zero or negative, one of no bytes if it is negative; otherwise the whole frame is
      written. When the list is used up, writes fail. */
  type Plan = seq<int>

  predicate Goes(plan: Plan, f: Frame) {
    plan != [] && (plan[0] > 0 || (plan[0] == 0 && f.payload == []))
  }

  /** How many of the frames get written. */
  function Written(plan: Plan, fs: seq<Frame>): (n: nat)
    ensures n <= |fs|
  {
    if fs == [] || !Goes(plan, fs[0]) then 0 else 1 + Written(plan[1..], fs[1..])
  }

  lemma WrittenStep(plan: Plan, fs: seq<Frame>)
    ensures Written(plan, fs) == if fs == [] || !Goes(plan, fs[0]) then 0 else 1 + Written(plan[1..], fs[1..])
  {
  }

  class Transport {
    var plan: Plan
    var frames: seq<Frame>

    /** esp_transport_ws_send_raw. */
    method SendRaw(op: Opcode, bytes: seq<byte>) returns (w: int)
      modifies this
      ensures var f := Frame(op.fin, op.code, bytes);
              if Goes(old(plan), f) then w == |bytes| && frames == old(frames) + [f] && plan == old(plan)[1..]
              else (w < 0 || (w == 0 && bytes != [])) && frames == old(frames) && plan == old(plan)
    {
      if plan == [] || plan[0] < 0 || (plan[0] == 0 && bytes != []) {
        return if plan == [] then -1 else plan[0];
      }
      frames, plan := frames + [Frame(op.fin, op.code, bytes)], plan[1..];
      w := |bytes|;
    }
  }

  // The client, as far as sending goes.

  class Sender {
    const transport: Transport
    const txBuffer: array<byte>
    var connected: bool
    var aborts: nat

    constructor (transport: Transport, bufferSize: nat)
      requires bufferSize > 0
      ensures Valid() && this.transport == transport && fresh(txBuffer) && txBuffer.Length == bufferSize
      ensures connected && aborts == 0
    {
      this.transport := transport;
      txBuffer := new byte[bufferSize];
      connected, aborts := true, 0;
    }

    ghost predicate Valid() {
      txBuffer.Length > 0
    }

    /** Copy the next `n` bytes of the data to the transmit buffer and write them as one frame. */
    method WriteChunk(op: Opcode, chunk: seq<byte>) returns (w: int)
      requires |chunk| <= txBuffer.Length
      modifies transport, txBuffer
      ensures var f := Frame(op.fin, op.code, chunk);
              if Goes(old(transport.plan), f) then
                w == |chunk| && transport.frames == old(transport.frames) + [f] && transport.plan == old(transport.plan)[1..]
              else
                (w < 0 || (w == 0 && chunk != [])) && transport.frames == old(transport.frames)
    {
      forall i | 0 <= i < |chunk| {
        txBuffer[i] := chunk[i];
      }
      assert txBuffer[..|chunk|] == chunk;
      w := transport.SendRaw(op, txBuffer[..|chunk|]);
    }

    /** The frame loop: the frames of the call, up to the first write that fails. */
    method SendFrames(op: Opcode, data: seq<byte>) returns (ret: int, ok: bool)
      requires Valid()
      modifies transport, txBuffer
      ensures var fs := Fragments(op, data, txBuffer.Length);
              var n := Written(old(transport.plan), fs);
              && transport.frames == old(transport.frames) + fs[..n]
              && ok == (n == |fs|) && (if ok then ret == |data| else ret <= 0)
    {
      hide Fragments, Written, Goes, Reached;
      var size := txBuffer.Length;
      ghost var fs := Fragments(op, data, size);
      ghost var done := 0;
      var first := true;
      var opcode := op;
      var needWrite, widx := |data|, 0;
      ReachedStart(op, data, size);
      while widx < |data| || NonZero(opcode)
        invariant 0 <= widx <= |data| && needWrite == |data| - widx
        invariant if first then widx == 0 && opcode == op else opcode == Opcode(false, CONT)
        invariant done <= |fs| && Reached(op, data, size, widx, done, first)
        invariant Written(old(transport.plan), fs) == done + Written(transport.plan, fs[done..])
        invariant transport.frames == old(transport.frames) + fs[..done]
        decreases |data| - widx, first
      {
        ReachedNext(op, data, size, widx, done, first);
        WrittenStep(transport.plan, fs[done..]);
        if needWrite > size {
          needWrite := size;
          opcode := Opcode(false, opcode.code);
        } else if op.fin {
          opcode := Opcode(true, opcode.code);
        }
        var wlen := WriteChunk(opcode, data[widx..][..needWrite]);
        if wlen < 0 || (wlen == 0 && needWrite != 0) {
          return wlen, false;
        }
        assert fs[done..][1..] == fs[done + 1..];
        assert fs[..done + 1] == fs[..done] + [fs[done]];
        done, first := done + 1, false;
        opcode := Opcode(false, CONT);
        widx := widx + wlen;
        needWrite := |data| - widx;
      }
      ReachedEnd(op, data, size, done, first);
      WrittenStep(transport.plan, fs[done..]);
      assert fs[..done] == fs;
      ret, ok := widx, true;
    }

    /** esp_websocket_client_send_with_exact_opcode, with the lock granted (`locked`) or timed out. */
    method SendExact(op: Opcode, data: seq<byte>, locked: bool) returns (ret: int)
      requires Valid()
      modifies this, transport, txBuffer
      ensures !old(connected) || !locked ==>
                ret == -1 && transport.frames == old(transport.frames) && connected == old(connected) && aborts == old(aborts)
      ensures old(connected) && locked ==>
                var fs := Fragments(op, data, txBuffer.Length);
                var n := Written(old(transport.plan), fs);
                && transport.frames == old(transport.frames) + fs[..n]
                && (n == |fs| ==> ret == |data| && connected && aborts == old(aborts))
                && (n < |fs| ==> ret <= 0 && !connected && aborts == old(aborts) + 1)
    {
      if !connected || !locked {
        return -1;
      }
      var ok;
      ret, ok := SendFrames(op, data);
      if !ok {
        connected, aborts := false, aborts + 1;
      }
    }
  }

  /** The frames that follow the first one, for what is left of the data. */
  function Left(fin: bool, data: seq<byte>, size: nat): seq<Frame>
    requires size > 0
  {
    if data == [] then [] else Fragments(Opcode(fin, CONT), data, size)
  }

  /** `done` frames of the call have been written, with `widx` bytes of its data. */
  ghost predicate Reached(op: Opcode, data: seq<byte>, size: nat, widx: nat, done: nat, first: bool)
    requires size > 0 && widx <= |data|
  {
    var fs := Fragments(op, data, size);
    done <= |fs| && fs[done..] == if first then fs else Left(op.fin, data[widx..], size)
  }

  lemma ReachedStart(op: Opcode, data: seq<byte>, size: nat)
    requires size > 0
    ensures Reached(op, data, size, 0, 0, true)
  {
  }

  lemma ReachedNext(op: Opcode, data: seq<byte>, size: nat, widx: nat, done: nat, first: bool)
    requires size > 0 && widx <= |data| && Reached(op, data, size, widx, done, first)
    requires if first then widx == 0 && (data != [] || NonZero(op)) else widx < |data|
    ensures var n, fs := Min(|data| - widx, size), Fragments(op, data, size);
            && done < |fs|
            && fs[done] == Frame(op.fin && |data| - widx <= size, if first then op.code else CONT, data[widx..][..n])
            && Reached(op, data, size, widx + n, done + 1, false)
  {
    var todo, fs := data[widx..], Fragments(op, data, size);
    var n := Min(|todo|, size);
    NextFragment(if first then op else Opcode(op.fin, CONT), todo, size);
    assert first ==> todo == data;
    assert fs[done + 1..] == fs[done..][1..] == Left(op.fin, todo[n..], size);
    assert todo[n..] == data[widx + n..];
  }

  lemma ReachedEnd(op: Opcode, data: seq<byte>, size: nat, done: nat, first: bool)
    requires size > 0 && Reached(op, data, size, |data|, done, first)
    requires first ==> data == [] && !NonZero(op)
    ensures done == |Fragments(op, data, size)|
  {
  }

  lemma NextFragment(op: Opcode, data: seq<byte>, size: nat)
    requires size > 0 && (data != [] || NonZero(op))
    ensures var n := Min(|data|, size);
            Fragments(op, data, size)
            == [Frame(op.fin && |data| <= size, op.code, data[..n])] + Left(op.fin, data[n..], size)
    ensures op.code == CONT && data != [] ==> Left(op.fin, data, size) == Fragments(op, data, size)
  {
    if |data| <= size {
      assert data[..|data|] == data && data[|data|..] == [];
    }
  }

  lemma NoFragment(op: Opcode, size: nat)
    requires size > 0
    ensures !NonZero(op) ==> Fragments(op, [], size) == []
  {
  }

  // The shape of one call.

  function Payloads(fs: seq<Frame>): seq<byte> {
    if fs == [] then [] else fs[0].payload + Payloads(fs[1..])
  }

  /** The given opcode first and continuations after it, FIN on the last frame only and only if asked
      for, no frame above the buffer size, and together the data. */
  lemma {:induction false} FragmentsShape(op: Opcode, data: seq<byte>, size: nat)
    requires size > 0
    ensures var fs := Fragments(op, data, size);
            && (forall i :: 0 <= i < |fs| ==>
                  && fs[i].code == (if i == 0 then op.code else CONT)
                  && (fs[i].fin <==> op.fin && i == |fs| - 1)
                  && |fs[i].payload| <= size)
            && Payloads(fs) == data
            && (NonZero(op) ==> fs != [])
    decreases |data|
  {
    var fs := Fragments(op, data, size);
    if |data| > size {
      var op', more := Opcode(op.fin, CONT), Fragments(Opcode(op.fin, CONT), data[size..], size);
      FragmentsShape(op', data[size..], size);
      assert more != [];
      assert forall i :: 0 < i < |fs| ==> fs[i] == more[i - 1];
      assert fs[1..] == more;
      assert data == data[..size] + data[size..];
    } else if fs != [] {
      assert fs[1..] == [];
    }
  }

  // The receiver of section 5.4.

  datatype Message = Message(code: nat, data: seq<byte>)

  /** Between messages, inside a fragmented one, or failed because the rules were broken. */
  datatype Rx = Idle | Within(code: nat, acc: seq<byte>) | Broken

  datatype Received = Received(rx: Rx, messages: seq<Message>)

  predicate IsControl(f: Frame) {
    f.code >= CLOSE
  }

  function ReceiveOne(rx: Rx, f: Frame): Received {
    match rx
    case Broken => Received(Broken, [])
    case Idle =>
      if IsControl(f) then Received(if f.fin then Idle else Broken, [])
      else if f.code != TEXT && f.code != BINARY then Received(Broken, [])
      else if f.fin then Received(Idle, [Message(f.code, f.payload)])
      else Received(Within(f.code, f.payload), [])
    case Within(code, acc) =>
      if IsControl(f) then Received(if f.fin then rx else Broken, [])
      else if f.code != CONT then Received(Broken, [])
      else if f.fin then Received(Idle, [Message(code, acc + f.payload)])
      else Received(Within(code, acc + f.payload), [])
  }

  function Receive(rx: Rx, fs: seq<Frame>): Received
    decreases |fs|
  {
    if fs == [] then Received(rx, [])
    else
      var r := ReceiveOne(rx, fs[0]);
      var rest := Receive(r.rx, fs[1..]);
      Received(rest.rx, r.messages + rest.messages)
  }

  lemma {:induction false} ReceiveJoin(rx: Rx, a: seq<Frame>, b: seq<Frame>)
    ensures var ra := Receive(rx, a);
            var rb := Receive(ra.rx, b);
            Receive(rx, a + b) == Received(rb.rx, ra.messages + rb.messages)
    decreases |a|
  {
    if a == [] {
      assert a + b == b;
    } else {
      var r := ReceiveOne(rx, a[0]);
      ReceiveJoin(r.rx, a[1..], b);
      assert (a + b)[0] == a[0] && (a + b)[1..] == a[1..] + b;
      var x, y := r.messages, Receive(r.rx, a[1..]);
      var z := Receive(y.rx, b).messages;
      assert x + (y.messages + z) == x + y.messages + z;
    }
  }

  lemma {:induction false} BrokenStays(fs: seq<Frame>)
    ensures Receive(Broken, fs) == Received(Broken, [])
  {
    if fs != [] {
      BrokenStays(fs[1..]);
    }
  }

  /** The frames of a continuation call, inside a message. */
  lemma {:induction false} ReceiveContinuation(code: nat, acc: seq<byte>, fin: bool, data: seq<byte>, size: nat)
    requires size > 0
    ensures Receive(Within(code, acc), Fragments(Opcode(fin, CONT), data, size))
            == if fin then Received(Idle, [Message(code, acc + data)]) else Received(Within(code, acc + data), [])
    decreases |data|
  {
    var fs := Fragments(Opcode(fin, CONT), data, size);
    if |data| > size {
      ReceiveContinuation(code, acc + data[..size], fin, data[size..], size);
      assert fs[1..] == Fragments(Opcode(fin, CONT), data[size..], size);
      assert acc + data[..size] + data[size..] == acc + data;
    } else if fs == [] {
      assert acc + data == acc;
    } else {
      assert fs[1..] == [];
    }
  }

  /** The frames of a call that starts a message. */
  lemma ReceiveStart(code: nat, fin: bool, data: seq<byte>, size: nat)
    requires size > 0 && (code == TEXT || code == BINARY)
    ensures Receive(Idle, Fragments(Opcode(fin, code), data, size))
            == if fin then Received(Idle, [Message(code, data)]) else Received(Within(code, data), [])
  {
    var fs := Fragments(Opcode(fin, code), data, size);
    if |data| > size {
      ReceiveContinuation(code, data[..size], fin, data[size..], size);
      assert fs[1..] == Fragments(Opcode(fin, CONT), data[size..], size);
      assert data[..size] + data[size..] == data;
    } else {
      assert fs[1..] == [];
    }
  }

  /** Outside its place a call that sends any frame at all breaks the connection. */
  lemma ReceiveMisplaced(rx: Rx, op: Opcode, data: seq<byte>, size: nat)
    requires size > 0 && (op.code == CONT || op.code == TEXT || op.code == BINARY)
    requires if op.code == CONT then rx == Idle && (data != [] || op.fin) else rx.Within?
    ensures Receive(rx, Fragments(op, data, size)).rx == Broken
  {
    var fs := Fragments(op, data, size);
    BrokenStays(fs[1..]);
  }

  // Sequences of calls.

  /** The calls that send data: send_text, send_bin and their partial forms start a message,
      send_cont_msg and send_fin continue one. */
  datatype Call = Start(code: nat, fin: bool, data: seq<byte>) | Continue(fin: bool, data: seq<byte>)

  predicate CallOk(c: Call) {
    c.Start? ==> c.code == TEXT || c.code == BINARY
  }

  function CallFrames(c: Call, size: nat): seq<Frame>
    requires size > 0
  {
    match c
    case Start(code, fin, data) => Fragments(Opcode(fin, code), data, size)
    case Continue(fin, data) => Fragments(Opcode(fin, CONT), data, size)
  }

  function AllFrames(cs: seq<Call>, size: nat): seq<Frame>
    requires size > 0
  {
    if cs == [] then [] else CallFrames(cs[0], size) + AllFrames(cs[1..], size)
  }

  /** Messages start only between messages, and are continued only when one is open. */
  predicate Nested(cs: seq<Call>, inside: bool) {
    if cs == [] then true
    else
      match cs[0]
      case Start(_, fin, _) => !inside && Nested(cs[1..], !fin)
      case Continue(fin, data) => (inside || (data == [] && !fin)) && Nested(cs[1..], inside && !fin)
  }

  /** What nested calls say, call by call. */
  function Meaning(cs: seq<Call>, rx: Rx): Received {
    if cs == [] then Received(rx, [])
    else
      match cs[0]
      case Start(code, fin, data) =>
        if fin then Meaning(cs[1..], Idle).(messages := [Message(code, data)] + Meaning(cs[1..], Idle).messages)
        else Meaning(cs[1..], Within(code, data))
      case Continue(fin, data) =>
        if !rx.Within? then Meaning(cs[1..], rx)
        else if fin then
          Meaning(cs[1..], Idle).(messages := [Message(rx.code, rx.acc + data)] + Meaning(cs[1..], Idle).messages)
        else Meaning(cs[1..], Within(rx.code, rx.acc + data))
  }

  /** Whatever the calls, with whatever buffer size: the receiver accepts their frames if and only if
      the calls are nested, and then it has exactly the messages the calls say. */
  lemma {:induction false} CallsDeliver(cs: seq<Call>, rx: Rx, size: nat)
    requires size > 0 && !rx.Broken? && forall c :: c in cs ==> CallOk(c)
    ensures Nested(cs, rx.Within?) ==> Receive(rx, AllFrames(cs, size)) == Meaning(cs, rx) && !Meaning(cs, rx).rx.Broken?
    ensures !Nested(cs, rx.Within?) ==> Receive(rx, AllFrames(cs, size)).rx == Broken
    decreases |cs|
  {
    hide Fragments, Receive;
    if cs == [] {
      ReceiveNone(rx);
    } else {
      var c, rest := cs[0], AllFrames(cs[1..], size);
      assert CallOk(c) && forall d :: d in cs[1..] ==> d in cs;
      ReceiveJoin(rx, CallFrames(c, size), rest);
      BrokenStays(rest);
      if c.Start? && rx == Idle {
        ReceiveStart(c.code, c.fin, c.data, size);
        CallsDeliver(cs[1..], if c.fin then Idle else Within(c.code, c.data), size);
      } else if c.Start? {
        ReceiveMisplaced(rx, Opcode(c.fin, c.code), c.data, size);
      } else if rx.Within? {
        ReceiveContinuation(rx.code, rx.acc, c.fin, c.data, size);
        CallsDeliver(cs[1..], if c.fin then Idle else Within(rx.code, rx.acc + c.data), size);
      } else if c.data == [] && !c.fin {
        NoFragment(Opcode(false, CONT), size);
        ReceiveNone(rx);
        CallsDeliver(cs[1..], rx, size);
      } else {
        ReceiveMisplaced(rx, Opcode(c.fin, CONT), c.data, size);
      }
    }
  }

  lemma ReceiveNone(rx: Rx)
    ensures Receive(rx, []) == Received(rx, [])
  {
  }

  function Joined(parts: seq<seq<byte>>): seq<byte> {
    if parts == [] then [] else parts[0] + Joined(parts[1..])
  }

  function Continuations(parts: seq<seq<byte>>): seq<Call> {
    if parts == [] then [Continue(true, [])] else [Continue(false, parts[0])] + Continuations(parts[1..])
  }

  lemma {:induction false} ContinuationsMean(parts: seq<seq<byte>>, code: nat, acc: seq<byte>)
    ensures Nested(Continuations(parts), true) && forall c :: c in Continuations(parts) ==> CallOk(c)
    ensures Meaning(Continuations(parts), Within(code, acc)) == Received(Idle, [Message(code, acc + Joined(parts))])
    decreases |parts|
  {
    var cs := Continuations(parts);
    if parts == [] {
      assert cs[1..] == [];
      assert [Message(code, acc + [])] + [] == [Message(code, acc + [])];
    } else {
      ContinuationsMean(parts[1..], code, acc + parts[0]);
      assert cs[1..] == Continuations(parts[1..]);
      assert acc + parts[0] + Joined(parts[1..]) == acc + (parts[0] + Joined(parts[1..]));
    }
  }

  /** A partial send, any number of continuation sends and a final send_fin make one message out of
      everything they were given. */
  lemma PartialSendsReassemble(code: nat, head: seq<byte>, parts: seq<seq<byte>>, size: nat)
    requires size > 0 && (code == TEXT || code == BINARY)
    ensures Receive(Idle, AllFrames([Start(code, false, head)] + Continuations(parts), size))
            == Received(Idle, [Message(code, head + Joined(parts))])
  {
    var cs := [Start(code, false, head)] + Continuations(parts);
    ContinuationsMean(parts, code, head);
    assert cs[1..] == Continuations(parts);
    CallsDeliver(cs, Idle, size);
  }

  /** Control frames of the client task (PING, PONG, CLOSE, all with FIN) may fall anywhere between
      frames without changing what is received. */
  function DataOnly(fs: seq<Frame>): seq<Frame> {
    if fs == [] then [] else (if IsControl(fs[0]) then [] else [fs[0]]) + DataOnly(fs[1..])
  }

  lemma {:induction false} ControlsInvisible(rx: Rx, fs: seq<Frame>)
    requires forall f :: f in fs && IsControl(f) ==> f.fin
    ensures Receive(rx, fs) == Receive(rx, DataOnly(fs))
    decreases |fs|
  {
    if fs != [] {
      var r := ReceiveOne(rx, fs[0]);
      ControlsInvisible(r.rx, fs[1..]);
      if IsControl(fs[0]) {
        assert DataOnly(fs) == DataOnly(fs[1..]);
      } else {
        assert DataOnly(fs)[0] == fs[0] && DataOnly(fs)[1..] == DataOnly(fs[1..]);
      }
    }
  }

  /** A send that fails on the way delivers nothing: what has been written is no complete message. */
  lemma FailedSendDeliversNothing(code: nat, data: seq<byte>, size: nat, n: nat)
    requires size > 0 && (code == TEXT || code == BINARY) && n < |Fragments(Opcode(true, code), data, size)|
    ensures var r := Receive(Idle, Fragments(Opcode(true, code), data, size)[..n]);
            r.messages == [] && (r.rx == Idle <==> n == 0) && !r.rx.Broken?
  {
    var fs := Fragments(Opcode(true, code), data, size);
    FragmentsShape(Opcode(true, code), data, size);
    OpenPrefix(fs[..n], code);
  }

  /** A start without FIN and continuations without FIN leave a message open. */
  lemma {:induction false} OpenPrefix(fs: seq<Frame>, code: nat)
    requires code == TEXT || code == BINARY
    requires forall i :: 0 <= i < |fs| ==> !fs[i].fin && fs[i].code == if i == 0 then code else CONT
    ensures Receive(Idle, fs) == Received(if fs == [] then Idle else Within(code, Payloads(fs)), [])
    decreases |fs|
  {
    if fs != [] {
      var n := |fs| - 1;
      OpenPrefix(fs[..n], code);
      ReceiveJoin(Idle, fs[..n], [fs[n]]);
      assert fs[..n] + [fs[n]] == fs;
      assert [fs[n]][1..] == [];
      assert Payloads([fs[n]]) == fs[n].payload;
      var rx := Receive(Idle, fs[..n]).rx;
      var one := ReceiveOne(rx, fs[n]);
      assert Receive(rx, [fs[n]]) == Received(one.rx, one.messages + []);
      PayloadsJoin(fs[..n], [fs[n]]);
    }
  }

  lemma {:induction false} PayloadsJoin(a: seq<Frame>, b: seq<Frame>)
    ensures Payloads(a + b) == Payloads(a) + Payloads(b)
  {
    if a == [] {
      assert a + b == b;
    } else {
      hide Payloads;
      PayloadsJoin(a[1..], b);
      PayloadsFirst(a);
      PayloadsFirst(a + b);
      JoinHead(a, b);
      JoinAssoc(a[0].payload, Payloads(a[1..]), Payloads(b));
    }
  }

  lemma PayloadsFirst(a: seq<Frame>)
    requires a != []
    ensures Payloads(a) == a[0].payload + Payloads(a[1..])
  {
  }
}
