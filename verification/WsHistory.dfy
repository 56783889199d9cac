/** The events a WebSocket client leaves behind, and what it means for them to be in order. */
module WsHistory {
  import opened Options

  datatype ConnectResult = Failed | Redirected | Established

  /** What can be seen from outside, in order. */
  datatype Event =
    | BeforeConnect
    | Connect(result: ConnectResult)
    | TransportClose
    | EvConnected
    | EvDisconnected
    | EvClosed
    | EvFinish
    | PingSent(tick: nat, at: nat)   // the clock as stored for the next PING, and as read after sending
    | PongIn
    | PongTimeout(at: nat)
    | CloseIn                        // a CLOSE frame has been read to its end
    | CloseEcho

  predicate IsEnd(e: Event) {
    e == EvDisconnected || e == EvClosed
  }

  /** End events since the last attempt began. */
  function Ends(h: seq<Event>): nat {
    if h == [] then 0
    else
      var e, before := h[|h| - 1], h[..|h| - 1];
      if e == BeforeConnect then 0 else (if IsEnd(e) then 1 else 0) + Ends(before)
  }

  /** Transport closes since the last transport connect. */
  function Closes(h: seq<Event>): nat {
    if h == [] then 0
    else
      var e, before := h[|h| - 1], h[..|h| - 1];
      if e.Connect? then 0 else (if e == TransportClose then 1 else 0) + Closes(before)
  }

  function LastConnect(h: seq<Event>): Option<ConnectResult> {
    if h == [] then None
    else if h[|h| - 1].Connect? then Some(h[|h| - 1].result)
    else LastConnect(h[..|h| - 1])
  }

  /** End events since the last CONNECTED event; None if there has been none. */
  function EndsSinceConnected(h: seq<Event>): Option<nat> {
    if h == [] then None
    else
      var e, before := h[|h| - 1], EndsSinceConnected(h[..|h| - 1]);
      if e == EvConnected then Some(0)
      else if IsEnd(e) && before.Some? then Some(before.value + 1)
      else before
  }

  /** The time of the first PING since the last PONG, or since the connection was made. */
  function FirstPing(h: seq<Event>): Option<nat> {
    if h == [] then None
    else
      var e, before := h[|h| - 1], FirstPing(h[..|h| - 1]);
      match e
      case PingSent(_, at) => if before.Some? then before else Some(at)
      case PongIn => None
      case EvConnected => None
      case _ => before
  }

  /** `e` may follow `h`: an end event is the first of its attempt; a transport connect follows exactly
      one transport close after the connect before it, or at most one if that was a redirect; a CONNECTED
      event follows an end event after the one before it. */
  predicate MayFollow(h: seq<Event>, e: Event) {
    && (IsEnd(e) ==> Ends(h) == 0)
    && (e.Connect? && LastConnect(h).Some? ==>
          if LastConnect(h).value == Redirected then Closes(h) <= 1 else Closes(h) == 1)
    && (e == EvConnected && EndsSinceConnected(h).Some? ==> EndsSinceConnected(h).value >= 1)
  }

  ghost predicate Orderly(h: seq<Event>) {
    forall i :: 0 <= i < |h| ==> MayFollow(h[..i], h[i])
  }

  /** All that the definitions above say about one more event. */
  lemma OneMore(h: seq<Event>, e: Event)
    ensures Ends(h + [e]) == if e == BeforeConnect then 0 else (if IsEnd(e) then 1 else 0) + Ends(h)
    ensures Closes(h + [e]) == if e.Connect? then 0 else (if e == TransportClose then 1 else 0) + Closes(h)
    ensures LastConnect(h + [e]) == if e.Connect? then Some(e.result) else LastConnect(h)
    ensures EndsSinceConnected(h + [e]) ==
            (if e == EvConnected then Some(0)
             else if IsEnd(e) && EndsSinceConnected(h).Some? then Some(EndsSinceConnected(h).value + 1)
             else EndsSinceConnected(h))
    ensures FirstPing(h + [e]) ==
            match e
            case PingSent(_, at) => if FirstPing(h).Some? then FirstPing(h) else Some(at)
            case PongIn => None
            case EvConnected => None
            case _ => FirstPing(h)
    ensures Orderly(h + [e]) <==> Orderly(h) && MayFollow(h, e)
  {
    hide MayFollow, Orderly;
    var g := h + [e];
    assert g[..|h|] == h && g[|h|] == e;
    OrderlySplit(h, e);
  }

  lemma OrderlySplit(h: seq<Event>, e: Event)
    ensures Orderly(h + [e]) <==> Orderly(h) && MayFollow(h, e)
  {
    hide MayFollow;
    var g := h + [e];
    assert g[..|h|] == h && g[|h|] == e;
    if Orderly(h) && MayFollow(h, e) {
      forall i | 0 <= i < |g| ensures MayFollow(g[..i], g[i]) {
        assert i < |h| ==> g[..i] == h[..i] && MayFollow(h[..i], h[i]);
      }
    }
    if Orderly(g) {
      assert MayFollow(g[..|h|], g[|h|]);
      OrderlyPrefix(h, g);
    }
  }

  /** Once out of order, a history stays so. */
  lemma OrderlyPrefix(h: seq<Event>, g: seq<Event>)
    requires h <= g && Orderly(g)
    ensures Orderly(h)
  {
    hide MayFollow;
    forall i | 0 <= i < |h| ensures MayFollow(h[..i], h[i]) {
      assert g[..i] == h[..i] && MayFollow(g[..i], g[i]);
    }
  }

  // The same in terms of pairs of events.

  /** Between two end events an attempt begins. */
  ghost predicate OneEndPerAttempt(h: seq<Event>) {
    forall i, j :: 0 <= i < j < |h| && IsEnd(h[i]) && IsEnd(h[j]) ==> exists k :: i < k < j && h[k] == BeforeConnect
  }

  /** Between two CONNECTED events there is an end event. */
  ghost predicate EndBetweenConnected(h: seq<Event>) {
    forall i, j :: 0 <= i < j < |h| && h[i] == EvConnected && h[j] == EvConnected ==> exists k :: i < k < j && IsEnd(h[k])
  }

  function CountCloses(h: seq<Event>): nat {
    if h == [] then 0 else CountCloses(h[..|h| - 1]) + (if h[|h| - 1] == TransportClose then 1 else 0)
  }

  /** The transport connects at i and j have no other between them. */
  ghost predicate NextConnect(h: seq<Event>, i: nat, j: nat) {
    i < j < |h| && h[i].Connect? && h[j].Connect? && forall k :: i < k < j ==> !h[k].Connect?
  }

  /** Between consecutive transport connects the transport is closed exactly once, or at most once if the
      first ended in a redirect. */
  ghost predicate OneCloseBetweenConnects(h: seq<Event>) {
    forall i: nat, j: nat :: NextConnect(h, i, j) ==>
      (if h[i].result == Redirected then CountCloses(h[i + 1..j]) <= 1 else CountCloses(h[i + 1..j]) == 1)
  }

  lemma {:induction false} EndsZero(h: seq<Event>)
    ensures Ends(h) == 0 <==> forall i :: 0 <= i < |h| && IsEnd(h[i]) ==> exists k :: i < k < |h| && h[k] == BeforeConnect
  {
    if h != [] {
      var g, e := h[..|h| - 1], h[|h| - 1];
      EndsZero(g);
      assert h == g + [e];
      if e != BeforeConnect && Ends(h) == 0 {
        forall i | 0 <= i < |h| && IsEnd(h[i]) ensures exists k :: i < k < |h| && h[k] == BeforeConnect {
          assert IsEnd(g[i]);
          var k :| i < k < |g| && g[k] == BeforeConnect;
          assert h[k] == BeforeConnect;
        }
      } else if e != BeforeConnect && !IsEnd(e) {
        var i :| 0 <= i < |g| && IsEnd(g[i]) && forall k :: i < k < |g| ==> g[k] != BeforeConnect;
        assert IsEnd(h[i]) && forall k :: i < k < |h| ==> h[k] != BeforeConnect;
      } else if e == BeforeConnect {
        assert h[|h| - 1] == BeforeConnect;
      }
    }
  }

  /** Every CONNECTED event of h has an end event after it. */
  ghost predicate AllEnded(h: seq<Event>) {
    forall i :: 0 <= i < |h| && h[i] == EvConnected ==> exists k :: i < k < |h| && IsEnd(h[k])
  }

  lemma AllEndedStep(h: seq<Event>, e: Event)
    ensures AllEnded(h + [e]) <==> IsEnd(e) || (AllEnded(h) && e != EvConnected)
  {
    var g := h + [e];
    assert g[|h|] == e;
    if AllEnded(g) && !IsEnd(e) {
      forall i | 0 <= i < |h| && h[i] == EvConnected ensures exists k :: i < k < |h| && IsEnd(h[k]) {
        assert g[i] == EvConnected;
        var k :| i < k < |g| && IsEnd(g[k]);
        assert IsEnd(h[k]);
      }
    }
    if AllEnded(h) && e != EvConnected {
      forall i | 0 <= i < |g| && g[i] == EvConnected ensures exists k :: i < k < |g| && IsEnd(g[k]) {
        assert h[i] == EvConnected;
        var k :| i < k < |h| && IsEnd(h[k]);
        assert IsEnd(g[k]);
      }
    }
  }

  lemma {:induction false} EndedSince(h: seq<Event>)
    ensures EndsSinceConnected(h) != Some(0) <==> AllEnded(h)
  {
    if h != [] {
      hide EndsSinceConnected, AllEnded;
      var g, e := h[..|h| - 1], h[|h| - 1];
      assert h == g + [e];
      EndedSince(g);
      OneMore(g, e);
      AllEndedStep(g, e);
    }
  }

  /** The last transport connect, and the closes since then. */
  lemma {:induction false} ClosesSince(h: seq<Event>, i: nat)
    requires i < |h| && h[i].Connect? && forall k :: i < k < |h| ==> !h[k].Connect?
    ensures LastConnect(h) == Some(h[i].result) && Closes(h) == CountCloses(h[i + 1..])
  {
    var g, e := h[..|h| - 1], h[|h| - 1];
    if i < |h| - 1 {
      ClosesSince(g, i);
      assert h[i + 1..][..|h| - i - 2] == g[i + 1..];
    }
  }

  lemma {:induction false} LastConnectAt(h: seq<Event>) returns (i: nat)
    requires LastConnect(h).Some?
    ensures i < |h| && h[i].Connect? && forall k :: i < k < |h| ==> !h[k].Connect?
  {
    if h[|h| - 1].Connect? {
      i := |h| - 1;
    } else {
      i := LastConnectAt(h[..|h| - 1]);
    }
  }

  lemma EndStep(h: seq<Event>, e: Event)
    ensures OneEndPerAttempt(h + [e]) <==> OneEndPerAttempt(h) && (IsEnd(e) ==> Ends(h) == 0)
  {
    EndsZero(h);
    var g := h + [e];
    if OneEndPerAttempt(g) {
      forall i, j | 0 <= i < j < |h| && IsEnd(h[i]) && IsEnd(h[j]) ensures exists k :: i < k < j && h[k] == BeforeConnect {
        assert IsEnd(g[i]) && IsEnd(g[j]);
        var k :| i < k < j && g[k] == BeforeConnect;
        assert h[k] == BeforeConnect;
      }
      if IsEnd(e) {
        assert g[|h|] == e;
        forall i | 0 <= i < |h| && IsEnd(h[i]) ensures exists k :: i < k < |h| && h[k] == BeforeConnect {
          assert IsEnd(g[i]);
          var k :| i < k < |h| && g[k] == BeforeConnect;
          assert h[k] == BeforeConnect;
        }
      }
    }
    if OneEndPerAttempt(h) && (IsEnd(e) ==> Ends(h) == 0) {
      forall i, j | 0 <= i < j < |g| && IsEnd(g[i]) && IsEnd(g[j]) ensures exists k :: i < k < j && g[k] == BeforeConnect {
        assert IsEnd(h[i]);
        var k :| i < k < j && h[k] == BeforeConnect;
        assert g[k] == BeforeConnect;
      }
    }
  }

  lemma ConnectedStep(h: seq<Event>, e: Event)
    ensures EndBetweenConnected(h + [e]) <==> EndBetweenConnected(h) && (e == EvConnected ==> EndsSinceConnected(h) != Some(0))
  {
    EndedSince(h);
    var g := h + [e];
    if EndBetweenConnected(g) {
      forall i, j | 0 <= i < j < |h| && h[i] == EvConnected && h[j] == EvConnected ensures exists k :: i < k < j && IsEnd(h[k]) {
        assert g[i] == g[j] == EvConnected;
        var k :| i < k < j && IsEnd(g[k]);
        assert IsEnd(h[k]);
      }
      if e == EvConnected {
        assert g[|h|] == e;
        forall i | 0 <= i < |h| && h[i] == EvConnected ensures exists k :: i < k < |h| && IsEnd(h[k]) {
          assert g[i] == EvConnected;
          var k :| i < k < |h| && IsEnd(g[k]);
          assert IsEnd(h[k]);
        }
      }
    }
    if EndBetweenConnected(h) && (e == EvConnected ==> EndsSinceConnected(h) != Some(0)) {
      forall i, j | 0 <= i < j < |g| && g[i] == EvConnected && g[j] == EvConnected ensures exists k :: i < k < j && IsEnd(g[k]) {
        assert h[i] == EvConnected;
        var k :| i < k < j && IsEnd(h[k]);
        assert IsEnd(g[k]);
      }
    }
  }

  predicate CloseCountFits(h: seq<Event>) {
    LastConnect(h).Some? ==> if LastConnect(h).value == Redirected then Closes(h) <= 1 else Closes(h) == 1
  }

  lemma ConnectStep(h: seq<Event>, e: Event)
    ensures OneCloseBetweenConnects(h + [e]) <==> OneCloseBetweenConnects(h) && (e.Connect? ==> CloseCountFits(h))
  {
    var g := h + [e];
    if OneCloseBetweenConnects(g) {
      forall i: nat, j: nat | NextConnect(h, i, j)
        ensures if h[i].result == Redirected then CountCloses(h[i + 1..j]) <= 1 else CountCloses(h[i + 1..j]) == 1
      {
        assert NextConnect(g, i, j) && g[i + 1..j] == h[i + 1..j];
      }
      if e.Connect? && LastConnect(h).Some? {
        var i := LastConnectAt(h);
        ClosesSince(h, i);
        assert NextConnect(g, i, |h|) && g[i + 1..|h|] == h[i + 1..];
      }
    }
    if OneCloseBetweenConnects(h) && (e.Connect? ==> CloseCountFits(h)) {
      forall i: nat, j: nat | NextConnect(g, i, j)
        ensures if g[i].result == Redirected then CountCloses(g[i + 1..j]) <= 1 else CountCloses(g[i + 1..j]) == 1
      {
        if j < |h| {
          assert forall k :: i < k < j ==> g[k] == h[k];
          assert NextConnect(h, i, j) && g[i + 1..j] == h[i + 1..j];
        } else {
          assert forall k :: i < k < |h| ==> g[k] == h[k];
          ClosesSince(h, i);
          assert g[i + 1..|h|] == h[i + 1..];
        }
      }
    }
  }

  /** Being in order is the three statements about pairs. */
  lemma {:induction false} OrderMeans(h: seq<Event>)
    ensures Orderly(h) <==> OneEndPerAttempt(h) && EndBetweenConnected(h) && OneCloseBetweenConnects(h)
  {
    hide Orderly, OneEndPerAttempt, EndBetweenConnected, OneCloseBetweenConnects, Ends, Closes, LastConnect, EndsSinceConnected;
    if h == [] {
      EmptyOrder();
    } else {
      var g, e := h[..|h| - 1], h[|h| - 1];
      assert h == g + [e];
      OrderMeans(g);
      OrderlySplit(g, e);
      EndStep(g, e);
      ConnectedStep(g, e);
      ConnectStep(g, e);
    }
  }

  lemma EmptyOrder()
    ensures Orderly([]) && OneEndPerAttempt([]) && EndBetweenConnected([]) && OneCloseBetweenConnects([])
  {
  }
}
