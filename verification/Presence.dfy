/** Whether a browser polls the dashboard: the requests and the cleanup scans share a wrapping time stamp
    and a flag under a mutex. */
module Presence {
  import opened Bytes
  import opened Options
  import opened Ticks

  const CLIENT_TIMEOUT_MS := 10000

  /** A request or a scan that got the mutex, and its true time; the code sees the time modulo 2^32. */
  datatype Event = Request(t: nat) | Scan(t: nat)

  datatype State = State(last: u32, count: nat)

  function After(s: State, e: Event): State {
    match e
    case Request(t) =>
      State(Clock(t), if (s.last == 0 || Since(t, s.last) > CLIENT_TIMEOUT_MS) && s.count == 0 then 1 else s.count)
    case Scan(t) =>
      if s.last > 0 && Since(t, s.last) > CLIENT_TIMEOUT_MS && s.count > 0 then s.(count := 0) else s
  }

  /** The state after a history of events. */
  function Run(h: seq<Event>): State {
    if h == [] then State(0, 0) else After(Run(h[..|h| - 1]), h[|h| - 1])
  }

  class Tracker {
    var last: u32
    var count: nat

    ghost function View(): State
      reads this
    {
      State(last, count)
    }

    constructor ()
      ensures View() == Run([])
    {
      last, count := 0, 0;
    }

    /** client_activity_update, with the mutex, at true time t. */
    method ActivityUpdate(t: nat)
      modifies this
      ensures View() == After(old(View()), Request(t))
    {
      var now: u32 := t % TWO32;
      if last == 0 || Sub32(now, last) > CLIENT_TIMEOUT_MS {
        if count == 0 {
          count := 1;
        }
      }
      last := now;
    }

    /** One turn of vClientCleanupTask, with the mutex, at true time t. */
    method Cleanup(t: nat)
      modifies this
      ensures View() == After(old(View()), Scan(t)) && last == old(last)
    {
      var now: u32 := t % TWO32;
      if last > 0 {
        var age := Sub32(now, last);
        if age > CLIENT_TIMEOUT_MS && count > 0 {
          count := 0;
        }
      }
    }
  }

  // What the flag is for, said in true time.

  /** The time of the last request. */
  function LastRequest(h: seq<Event>): Option<nat> {
    if h == [] then None
    else if h[|h| - 1].Request? then Some(h[|h| - 1].t)
    else LastRequest(h[..|h| - 1])
  }

  /** A client is present from a request until a scan that comes more than ten seconds after the last one. */
  predicate Present(h: seq<Event>) {
    h != [] &&
    match h[|h| - 1]
    case Request(_) => true
    case Scan(t) =>
      var g := h[..|h| - 1];
      Present(g) && LastRequest(g).Some? && t <= LastRequest(g).value + 10000
  }

  predicate Ordered(h: seq<Event>) {
    forall i, j :: 0 <= i < j < |h| ==> h[i].t <= h[j].t
  }

  /** The clock makes the code take e for something else: a request after an expired one looks recent, or
      a scan finds a stamp of zero or an old one that looks recent. */
  predicate Misread(h: seq<Event>, e: Event) {
    var last := LastRequest(h);
    && last.Some?
    && match e
       case Request(t) => !Present(h) && Clock(last.value) != 0 && Since(t, Clock(last.value)) <= CLIENT_TIMEOUT_MS
       case Scan(t) =>
         && Present(h) && t > last.value + CLIENT_TIMEOUT_MS
         && (Clock(last.value) == 0 || Since(t, Clock(last.value)) <= CLIENT_TIMEOUT_MS)
  }

  predicate WellRead(h: seq<Event>) {
    h == [] || (WellRead(h[..|h| - 1]) && !Misread(h[..|h| - 1], h[|h| - 1]))
  }

  /** The flag has been right all along. */
  predicate AlwaysRight(h: seq<Event>) {
    h == [] || (AlwaysRight(h[..|h| - 1]) && Run(h).count == if Present(h) then 1 else 0)
  }

  lemma {:induction false} StampOfLast(h: seq<Event>)
    ensures Run(h).last == match LastRequest(h) case None => 0 case Some(t) => Clock(t)
    ensures Present(h) ==> LastRequest(h).Some?
  {
    if h != [] {
      StampOfLast(h[..|h| - 1]);
    }
  }

  /** The flag is right all along exactly if no event is misread. */
  lemma {:induction false} RightExactly(h: seq<Event>)
    requires Ordered(h)
    ensures AlwaysRight(h) <==> WellRead(h)
  {
    if h != [] {
      var g, e := h[..|h| - 1], h[|h| - 1];
      assert Ordered(g);
      RightExactly(g);
      StampOfLast(g);
      if LastRequest(g).Some? {
        LastIsEarlier(g, e.t);
        SinceExact(e.t, LastRequest(g).value);
      }
    }
  }

  lemma {:induction false} LastIsEarlier(h: seq<Event>, t: nat)
    requires LastRequest(h).Some? && forall i :: 0 <= i < |h| ==> h[i].t <= t
    ensures LastRequest(h).value <= t
  {
    if !h[|h| - 1].Request? {
      LastIsEarlier(h[..|h| - 1], t);
    }
  }

  /** No request has the stamp zero, and no silence lasts 2^32 ms. */
  predicate Tame(h: seq<Event>) {
    h == [] ||
    (var g, e := h[..|h| - 1], h[|h| - 1];
     && Tame(g) && (e.Request? ==> Clock(e.t) != 0)
     && (LastRequest(g).Some? ==> e.t < LastRequest(g).value + TWO32))
  }

  lemma {:induction false} ExpiredWhileAbsent(h: seq<Event>, t: nat)
    requires Ordered(h) && !Present(h) && LastRequest(h).Some? && forall i :: 0 <= i < |h| ==> h[i].t <= t
    ensures t > LastRequest(h).value + CLIENT_TIMEOUT_MS
  {
    var g := h[..|h| - 1];
    assert Ordered(g);
    if !Present(g) {
      ExpiredWhileAbsent(g, t);
    }
  }

  lemma {:induction false} TameLast(h: seq<Event>)
    requires Tame(h) && LastRequest(h).Some?
    ensures Clock(LastRequest(h).value) != 0
  {
    if !h[|h| - 1].Request? {
      TameLast(h[..|h| - 1]);
    }
  }

  /** With nonzero stamps and silences below 2^32 ms, nothing is misread. */
  lemma {:induction false} TameIsRight(h: seq<Event>)
    requires Ordered(h) && Tame(h)
    ensures WellRead(h) && AlwaysRight(h)
  {
    RightExactly(h);
    if h != [] {
      var g, e := h[..|h| - 1], h[|h| - 1];
      assert Ordered(g);
      TameIsRight(g);
      if LastRequest(g).Some? {
        var at := LastRequest(g).value;
        TameLast(g);
        LastIsEarlier(g, e.t);
        SinceExact(e.t, at);
        if !Present(g) {
          ExpiredWhileAbsent(g, e.t);
        }
      }
    }
  }

  /** So, in every tame history: a request makes the flag one; it stays one through scans within ten
      seconds of the last request; and the first scan later than that makes it zero. */
  lemma FlagInTameHistory(h: seq<Event>, e: Event)
    requires Ordered(h + [e]) && Tame(h + [e])
    ensures e.Request? ==> Run(h + [e]).count == 1
    ensures e.Scan? && LastRequest(h).Some? && e.t > LastRequest(h).value + 10000 ==> Run(h + [e]).count == 0
    ensures e.Scan? && LastRequest(h).Some? && e.t <= LastRequest(h).value + 10000 ==> Run(h + [e]).count == 1
  {
    var k := h + [e];
    assert k[..|h|] == h && k[|h|] == e;
    TameIsRight(k);
    if e.Scan? && LastRequest(h).Some? && !Present(h) {
      assert forall i :: 0 <= i < |h| ==> h[i] == k[i];
      ExpiredWhileAbsent(h, e.t);
    }
  }

  /** Neither condition can be dropped: a stamp of zero never expires, and a request 2^32 + 4 ms
      after the one before it does not show. */
  lemma BothNeeded()
    ensures var zero := [Request(5 * TWO32), Scan(5 * TWO32 + 12000)];
            Run(zero).count == 1 && !Present(zero)
    ensures var gap := [Request(10), Scan(10020), Request(TWO32 + 14)];
            Run(gap).count == 0 && Present(gap)
  {
    var z := 5 * TWO32;
    var zero, gap := [Request(z), Scan(z + 12000)], [Request(10), Scan(10020), Request(TWO32 + 14)];
    assert zero[..1] == [Request(z)] && zero[..1][..0] == [];
    assert gap[..2] == [Request(10), Scan(10020)] && gap[..2][..1] == [Request(10)] && gap[..2][..1][..0] == [];
    assert Run([]) == State(0, 0);
    assert Run([Request(z)]) == After(Run([]), Request(z)) == State(0, 1);
    assert Run([Request(10)]) == After(Run([]), Request(10)) == State(10, 1);
    assert Run(gap[..2]) == After(State(10, 1), Scan(10020)) == State(10, 0);
    assert LastRequest([Request(z)]) == Some(z);
  }
}
