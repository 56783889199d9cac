/** The door part of the security task: one turn of its loop at a time. */
module Door {
  import opened Bytes
  import opened Options
  import opened Ticks

  const CONFIRM_MS := 50
  const STUCK_S := 30

  /** Opened is the DOOR_OPEN event; the others are the three ways in which a close is recorded. */
  datatype Event = Opened | Dropped | Confirmed | Stuck

  /** What one turn sees: whether the interrupt semaphore was there and the door with it, the door again,
      and the true times at which the clock is read in the three parts. */
  datatype Turn = Turn(taken: bool, door: bool, live: bool, a: nat, b: nat, c: nat)

  /** `stableAt` and `openAt` are the true times that the two stamps stand for. */
  datatype State = State(last: bool, stableSince: u32, openSince: u32, stableAt: nat, openAt: nat, log: seq<Event>)

  /** The part on the interrupt. */
  function OnInterrupt(s: State, i: Turn): State {
    if !i.taken then s
    else if i.door && !s.last then
      s.(last := true, stableSince := 0, openSince := Clock(i.a), openAt := i.a, log := s.log + [Opened])
    else if !i.door && s.last then
      s.(last := false, stableSince := Clock(i.a), stableAt := i.a, openSince := 0, log := s.log + [Dropped])
    else s.(last := i.door)
  }

  /** The confirmation of a close. */
  function OnLevel(s: State, i: Turn): State
  {
    if !s.last then s
    else if i.live then s.(stableSince := 0)
    else if s.stableSince == 0 then s.(stableSince := Clock(i.b), stableAt := i.b)
    else if Since(i.b, s.stableSince) > CONFIRM_MS then
      s.(last := false, stableSince := 0, openSince := 0, log := s.log + [Confirmed])
    else s
  }

  /** The release of a door that is stuck open. */
  function OnStuck(s: State, i: Turn): State
  {
    if s.last && s.openSince > 0 && Since(i.c, s.openSince) / 1000 >= STUCK_S then
      s.(last := false, stableSince := 0, openSince := 0, log := s.log + [Stuck])
    else s
  }

  function After(s: State, i: Turn): State
  {
    OnStuck(OnLevel(OnInterrupt(s, i), i), i)
  }

  class Monitor {
    var last: bool
    var stableSince: u32
    var openSince: u32
    ghost var stableAt: nat
    ghost var openAt: nat
    ghost var log: seq<Event>

    ghost function View(): State
      reads this
    {
      State(last, stableSince, openSince, stableAt, openAt, log)
    }

    constructor (door: bool)
      ensures View() == State(door, 0, 0, 0, 0, [])
    {
      last, stableSince, openSince := door, 0, 0;
      stableAt, openAt, log := 0, 0, [];
    }

    method Interrupt(door: bool, t: nat)
      modifies this
      ensures View() == OnInterrupt(old(View()), Turn(true, door, false, t, 0, 0))
    {
      if door && !last {
        log := log + [Opened];
        stableSince := 0;
        openSince, openAt := Clock(t), t;
      } else if !door && last {
        log := log + [Dropped];
        stableSince, stableAt := Clock(t), t;
        openSince := 0;
      }
      last := door;
    }

    method Level(live: bool, t: nat)
      modifies this
      ensures View() == OnLevel(old(View()), Turn(false, false, live, 0, t, 0))
    {
      if last {
        if !live {
          if stableSince == 0 {
            stableSince, stableAt := Clock(t), t;
          } else if Sub32(Clock(t), stableSince) > CONFIRM_MS {
            last := false;
            stableSince := 0;
            openSince := 0;
            log := log + [Confirmed];
          }
        } else {
          stableSince := 0;
        }
      }
    }

    method ReleaseStuck(t: nat)
      modifies this
      ensures View() == OnStuck(old(View()), Turn(false, false, false, 0, 0, t))
    {
      if last && openSince > 0 {
        var duration := Sub32(Clock(t), openSince) / 1000;
        if duration >= STUCK_S {
          last := false;
          openSince := 0;
          stableSince := 0;
          log := log + [Stuck];
        }
      }
    }

    /** One turn of the loop. */
    method Iterate(i: Turn)
      modifies this
      ensures View() == After(old(View()), i)
    {
      if i.taken {
        Interrupt(i.door, i.a);
      }
      Level(i.live, i.b);
      ReleaseStuck(i.c);
    }
  }

  function Start(door: bool): State {
    State(door, 0, 0, 0, 0, [])
  }

  /** The state after a history of turns. */
  function Run(door: bool, h: seq<Turn>): State
  {
    if h == [] then Start(door) else After(Run(door, h[..|h| - 1]), h[|h| - 1])
  }

  predicate IsClose(e: Event) {
    e != Opened
  }

  /** Two DOOR_OPEN events have a recorded close between them, and the door is recorded open after one. */
  ghost predicate Alternates(log: seq<Event>, last: bool) {
    && (forall i, j :: 0 <= i < j < |log| && log[i] == Opened && log[j] == Opened ==> exists k :: i < k < j && IsClose(log[k]))
    && (log != [] ==> (log[|log| - 1] == Opened <==> last))
  }

  lemma OneMore(log: seq<Event>, last: bool, e: Event)
    requires Alternates(log, last) && (e == Opened ==> !last)
    ensures Alternates(log + [e], e == Opened)
  {
    var g := log + [e];
    forall i, j | 0 <= i < j < |g| && g[i] == Opened && g[j] == Opened ensures exists k :: i < k < j && IsClose(g[k]) {
      if j < |log| {
        var k :| i < k < j && IsClose(log[k]);
        assert IsClose(g[k]);
      } else {
        assert IsClose(g[|log| - 1]);
      }
    }
  }

  /** A door that an event has recorded open carries the stamp of that event. */
  ghost predicate LatchInv(s: State) {
    && (s.openSince != 0 ==> s.last) && Alternates(s.log, s.last)
    && (s.last && s.log != [] ==> s.log[|s.log| - 1] == Opened && s.openSince == Clock(s.openAt))
    && (s.log == [] ==> s.openSince == 0)
  }

  lemma LatchStep(s: State, i: Turn)
    requires LatchInv(s)
    ensures LatchInv(After(s, i))
  {
    hide Alternates;
    var r := OnInterrupt(s, i);
    if i.taken && i.door && !s.last { OneMore(s.log, s.last, Opened); }
    if i.taken && !i.door && s.last { OneMore(s.log, s.last, Dropped); }
    assert LatchInv(r);
    var l := OnLevel(r, i);
    if r.last { OneMore(r.log, r.last, Confirmed); }
    assert LatchInv(l);
    if l.last { OneMore(l.log, l.last, Stuck); }
  }

  /** In every run: the open stamp is only set while the door is recorded open, and is the stamp of the
      DOOR_OPEN event if there was one; and two DOOR_OPEN events have a recorded close between them. */
  lemma {:induction false} LatchInEveryRun(door: bool, h: seq<Turn>)
    ensures LatchInv(Run(door, h))
  {
    if h != [] {
      hide LatchInv;
      LatchInEveryRun(door, h[..|h| - 1]);
      LatchStep(Run(door, h[..|h| - 1]), h[|h| - 1]);
    }
  }

  // Which readings open and close.

  /** Closed, going by the events: the last one is a recorded close, or there is none and the door was low at
      the start. */
  predicate ClosedBy(door: bool, log: seq<Event>) {
    if log == [] then !door else IsClose(log[|log| - 1])
  }

  predicate Adds(before: seq<Event>, after: seq<Event>, e: Event) {
    exists k :: |before| <= k < |after| && after[k] == e
  }

  lemma RecordStep(door: bool, s: State, i: Turn)
    requires s.last <==> !ClosedBy(door, s.log)
    ensures var u := After(s, i);
            && (u.last <==> !ClosedBy(door, u.log)) && s.log <= u.log
            && (Adds(s.log, u.log, Opened) <==> i.taken && i.door && !s.last)
            && (Adds(s.log, u.log, Dropped) <==> i.taken && !i.door && s.last)
            && (Adds(s.log, u.log, Opened) ==> u.openAt == i.a)
  {
    var r := OnInterrupt(s, i);
    var l, u := OnLevel(r, i), After(s, i);
    if i.taken && i.door && !s.last { assert u.log[|s.log|] == Opened; }
    if i.taken && !i.door && s.last { assert u.log[|s.log|] == Dropped; }
  }

  lemma {:induction false} RecordInEveryRun(door: bool, h: seq<Turn>)
    ensures Run(door, h).last <==> !ClosedBy(door, Run(door, h).log)
  {
    if h != [] {
      RecordInEveryRun(door, h[..|h| - 1]);
      RecordStep(door, Run(door, h[..|h| - 1]), h[|h| - 1]);
    }
  }

  /** In every run: a turn records an opening, at the time of its interrupt, if and only if its interrupt finds
      the door high and the events say that it is closed; it records a drop if and only if its interrupt finds
      it low and they say that it is open. After an interrupt that finds the door high it is recorded open. */
  lemma OpensExactly(door: bool, h: seq<Turn>, i: Turn)
    ensures var g, u := Run(door, h).log, Run(door, h + [i]);
            && g <= u.log
            && (Adds(g, u.log, Opened) <==> i.taken && i.door && ClosedBy(door, g))
            && (Adds(g, u.log, Dropped) <==> i.taken && !i.door && !ClosedBy(door, g))
            && (Adds(g, u.log, Opened) ==> u.openAt == i.a)
    ensures i.taken ==> OnInterrupt(Run(door, h), i).last == i.door
  {
    assert (h + [i])[..|h|] == h;
    RecordInEveryRun(door, h);
    RecordStep(door, Run(door, h), i);
  }

  /** The turns come in order, and less than 2^32 - 30000 ms pass from the start of one to the end of
      the next. */
  predicate Timely(h: seq<Turn>) {
    && (forall i :: 0 <= i < |h| ==> h[i].a <= h[i].b <= h[i].c < h[i].a + TWO32)
    && (forall i :: 0 < i < |h| ==> h[i - 1].c <= h[i].a && h[i].c + STUCK_S * 1000 < h[i - 1].a + TWO32)
  }

  /** In every timely run: at the end of a turn, a latch with a stamp was set less than 30 s ago. */
  lemma {:induction false} StampIsYoung(door: bool, h: seq<Turn>)
    requires h != [] && Timely(h)
    ensures var s, t := Run(door, h), h[|h| - 1].c;
            s.openSince != 0 ==> s.openSince == Clock(s.openAt) && s.openAt <= t < s.openAt + STUCK_S * 1000
  {
    hide Since, Clock;
    var g, i := h[..|h| - 1], h[|h| - 1];
    LatchInEveryRun(door, h);
    LatchInEveryRun(door, g);
    if g != [] {
      StampIsYoung(door, g);
      assert h[|h| - 2] == g[|g| - 1];
    }
    var l := OnLevel(OnInterrupt(Run(door, g), i), i);
    LatchPart(Run(door, g), i);
    if l.openSince != 0 { SinceExact(i.c, l.openAt); }
  }

  /** In every timely run, at the end of a turn: a door that an event has recorded open, at a time that the
      clock does not show as zero, was opened less than 30 s ago. */
  lemma LatchIsYoung(door: bool, h: seq<Turn>)
    requires h != [] && Timely(h)
    ensures var s, t := Run(door, h), h[|h| - 1].c;
            s.last && s.log != [] && Clock(s.openAt) != 0 ==> s.openAt <= t < s.openAt + 30000
  {
    LatchInEveryRun(door, h);
    StampIsYoung(door, h);
  }

  /** The turn sees the door high wherever it looks. */
  predicate SeesHigh(i: Turn) {
    i.live && (i.taken ==> i.door)
  }

  /** The exception: a latch whose stamp is zero is released by no later turn that sees the door high, at
      whatever time. */
  lemma {:induction false} ZeroStampStays(door: bool, h: seq<Turn>, g: seq<Turn>)
    requires Run(door, h).last && Run(door, h).openSince == 0 && forall k :: 0 <= k < |g| ==> SeesHigh(g[k])
    ensures var s, u := Run(door, h), Run(door, h + g);
            u.last && u.openSince == 0 && u.log == s.log
    decreases |g|
  {
    hide Clock, Since;
    if g == [] {
      assert h + g == h;
    } else {
      var n := |g| - 1;
      ZeroStampStays(door, h, g[..n]);
      assert (h + g)[..|h| + n] == h + g[..n] && (h + g)[|h| + n] == g[n];
    }
  }

  /** And a door opened when the clock shows zero has such a latch. */
  lemma OpenedAtZero()
    ensures var s := Run(false, [Turn(true, true, true, TWO32, TWO32, TWO32)]);
            s.last && s.openSince == 0 && s.log == [Opened] && s.openAt == TWO32
  {
    var h := [Turn(true, true, true, TWO32, TWO32, TWO32)];
    assert h[..0] == [];
    assert Run(false, h) == After(Start(false), h[0]);
  }

  /** Before the last part of a turn the latch is the old one or was set in this turn. */
  lemma LatchPart(s: State, i: Turn)
    requires LatchInv(s)
    ensures var l := OnLevel(OnInterrupt(s, i), i);
            l.openSince != 0 ==>
              && l.last
              && ((l.openSince == s.openSince && l.openAt == s.openAt) || (l.openSince == Clock(i.a) && l.openAt == i.a))
  {
  }

  // The stamp of the confirmation, for every history.

  /** Turn k looks at the level of a door that is recorded open, and sees it low. */
  predicate SeesLow(door: bool, h: seq<Turn>, k: nat)
    requires k < |h|
  {
    OnInterrupt(Run(door, h[..k]), h[k]).last && !h[k].live
  }

  /** Since turn j the door has stayed recorded open and every turn has seen it low, the first of them at a
      time that the clock does not show as zero. */
  ghost predicate LowStreak(door: bool, h: seq<Turn>, j: nat) {
    && j < |h| && Clock(h[j].b) != 0
    && forall k :: j <= k < |h| ==> SeesLow(door, h, k) && (k > j ==> Run(door, h[..k]).last)
  }

  /** The live readings of the last turn and of those before it have been low for more than 50 ms. */
  ghost predicate LowLongEnough(door: bool, h: seq<Turn>) {
    exists j: nat :: j < |h| && LowStreak(door, h, j) && h[j].b + 50 < h[|h| - 1].b
  }

  /** The last turn records a close. */
  ghost predicate RecordsClose(door: bool, h: seq<Turn>)
    requires h != []
  {
    var before, after := Run(door, h[..|h| - 1]).log, Run(door, h).log;
    exists k :: |before| <= k < |after| && IsClose(after[k])
  }

  /** The last turn finds the door still recorded open, by an event with a nonzero stamp 30 s ago or more. */
  predicate ReleaseFires(door: bool, h: seq<Turn>)
    requires h != []
  {
    var i := h[|h| - 1];
    var l := OnLevel(OnInterrupt(Run(door, h[..|h| - 1]), i), i);
    l.last && l.openSince != 0 && l.openAt + 30000 <= i.c
  }

  /** A stamp of the confirmation is that of the first turn of a streak. */
  ghost predicate StampIsStreak(door: bool, h: seq<Turn>) {
    var s := Run(door, h);
    s.last && s.stableSince != 0 ==>
      s.stableSince == Clock(s.stableAt) && exists j: nat :: j < |h| && LowStreak(door, h, j) && h[j].b == s.stableAt
  }

  lemma StablePart(s: State, i: Turn)
    ensures var u := After(s, i);
            u.last && u.stableSince != 0 ==>
              && OnInterrupt(s, i).last && !i.live
              && ((s.last && u.stableSince == s.stableSince && u.stableAt == s.stableAt) ||
                  (u.stableSince == Clock(i.b) && u.stableAt == i.b))
  {
  }

  lemma StreakMore(door: bool, h: seq<Turn>, j: nat)
    requires h != [] && SeesLow(door, h, |h| - 1)
    requires if j < |h| - 1 then LowStreak(door, h[..|h| - 1], j) && Run(door, h[..|h| - 1]).last
             else j == |h| - 1 && Clock(h[j].b) != 0
    ensures LowStreak(door, h, j)
  {
    hide Run, OnInterrupt, Clock;
    var g := h[..|h| - 1];
    forall k | j <= k < |h| ensures SeesLow(door, h, k) && (k > j ==> Run(door, h[..k]).last) {
      if k < |g| {
        assert SeesLow(door, g, k) && g[..k] == h[..k] && g[k] == h[k];
      }
    }
  }

  lemma {:induction false} StampsAreStreaks(door: bool, h: seq<Turn>)
    ensures StampIsStreak(door, h)
  {
    hide LowStreak, Clock;
    if h != [] {
      var g, i := h[..|h| - 1], h[|h| - 1];
      StampsAreStreaks(door, g);
      var s, u := Run(door, g), Run(door, h);
      StablePart(s, i);
      if u.last && u.stableSince != 0 {
        if u.stableAt == i.b && u.stableSince == Clock(i.b) {
          StreakMore(door, h, |h| - 1);
        } else {
          var j: nat :| j < |g| && LowStreak(door, g, j) && g[j].b == s.stableAt;
          StreakMore(door, h, j);
        }
      }
    }
  }

  lemma {:induction false} BeforeLast(h: seq<Turn>, j: nat)
    requires j < |h| - 1 && Timely(h)
    ensures h[j].c <= h[|h| - 1].a
    decreases |h| - j
  {
    if j + 1 < |h| - 1 {
      BeforeLast(h, j + 1);
    }
  }

  /** In every timely run: a close that is confirmed in the last turn comes after more than 50 ms in which
      every turn saw the door low. */
  lemma ConfirmedWasLow(door: bool, h: seq<Turn>)
    requires h != [] && Timely(h)
    requires var r := OnInterrupt(Run(door, h[..|h| - 1]), h[|h| - 1]);
             r.last && !OnLevel(r, h[|h| - 1]).last
    ensures LowLongEnough(door, h)
  {
    hide Run, LowStreak, Since, Clock;
    var g, i := h[..|h| - 1], h[|h| - 1];
    var s := Run(door, g);
    StampsAreStreaks(door, g);
    ConfirmPart(s, i);
    var j: nat :| j < |g| && LowStreak(door, g, j) && g[j].b == s.stableAt;
    StreakMore(door, h, j);
    BeforeLast(h, j);
    SinceExact(i.b, s.stableAt);
  }

  lemma ConfirmPart(s: State, i: Turn)
    requires var r := OnInterrupt(s, i);
             r.last && !OnLevel(r, i).last
    ensures s.last && s.stableSince != 0 && !i.live && Since(i.b, s.stableSince) > CONFIRM_MS
  {
  }

  lemma StreakPrefix(door: bool, h: seq<Turn>, j: nat)
    requires Timely(h) && LowStreak(door, h, j) && j < |h| - 1
    ensures var g := h[..|h| - 1];
            Timely(g) && LowStreak(door, g, j) && Run(door, g).last && g[j] == h[j]
  {
    hide Run, OnInterrupt, Clock;
    var g := h[..|h| - 1];
    forall k | j <= k < |g| ensures SeesLow(door, g, k) && (k > j ==> Run(door, g[..k]).last) {
      assert SeesLow(door, h, k);
      assert g[..k] == h[..k] && g[k] == h[k];
    }
    assert SeesLow(door, h, |g|);
  }

  /** While a streak lasts there is a stamp, of its first turn or an earlier one, and it is not old enough. */
  lemma {:induction false} StreakHasStamp(door: bool, h: seq<Turn>, j: nat)
    requires Timely(h) && LowStreak(door, h, j) && Run(door, h).last
    ensures var s := Run(door, h);
            && s.stableSince != 0 && s.stableSince == Clock(s.stableAt)
            && s.stableAt <= h[j].b && h[|h| - 1].b <= s.stableAt + CONFIRM_MS
    decreases |h|
  {
    hide Clock, Since;
    var g, i := h[..|h| - 1], h[|h| - 1];
    var s := Run(door, g);
    assert SeesLow(door, h, |g|);
    StampIsRecent(door, h);
    if j < |g| {
      StreakPrefix(door, h, j);
      StreakHasStamp(door, g, j);
    }
    StreakTurn(s, i);
  }

  /** A stamp that the last turn finds was not old enough at the turn before. */
  lemma {:induction false} StampIsRecent(door: bool, h: seq<Turn>)
    requires h != [] && Timely(h)
    ensures var s, i := Run(door, h[..|h| - 1]), h[|h| - 1];
            s.last && s.stableSince != 0 ==>
              s.stableSince == Clock(s.stableAt) && s.stableAt <= i.b && i.b < s.stableAt + TWO32
    decreases |h|
  {
    hide Clock, Since;
    var g, i := h[..|h| - 1], h[|h| - 1];
    if g != [] {
      var f, e := g[..|g| - 1], g[|g| - 1];
      assert e == h[|h| - 2];
      StampIsRecent(door, g);
      StampTurn(Run(door, f), e);
    }
  }

  /** One turn on the stamp of the confirmation, which was given at most 2^32 ms ago. */
  lemma StampTurn(s: State, i: Turn)
    requires s.last && s.stableSince != 0 ==>
               s.stableSince == Clock(s.stableAt) && s.stableAt <= i.b < s.stableAt + TWO32
    ensures var u := After(s, i);
            u.last && u.stableSince != 0 ==>
              && u.stableSince == Clock(u.stableAt) && u.stableAt <= i.b <= u.stableAt + CONFIRM_MS
              && (u.stableAt == i.b || (s.last && s.stableSince != 0 && u.stableAt == s.stableAt))
  {
    hide Clock, Since;
    if s.last && s.stableSince != 0 {
      SinceExact(i.b, s.stableAt);
    }
  }

  /** One turn that sees the door low and leaves it recorded open. */
  lemma StreakTurn(s: State, i: Turn)
    requires s.last && s.stableSince != 0 ==>
               s.stableSince == Clock(s.stableAt) && s.stableAt <= i.b < s.stableAt + TWO32
    requires OnInterrupt(s, i).last && !i.live && After(s, i).last
    requires (s.last && s.stableSince != 0) || Clock(i.b) != 0
    ensures var u := After(s, i);
            && u.stableSince != 0 && u.stableSince == Clock(u.stableAt)
            && u.stableAt <= i.b <= u.stableAt + CONFIRM_MS
            && (s.last && s.stableSince != 0 ==> u.stableAt == s.stableAt)
  {
    hide Clock, Since;
    StampTurn(s, i);
  }

  /** The three ways in which one turn records a close. */
  lemma CloseCases(s: State, i: Turn)
    ensures var r := OnInterrupt(s, i);
            var l, u := OnLevel(r, i), After(s, i);
            (exists k :: |s.log| <= k < |u.log| && IsClose(u.log[k])) <==>
            (i.taken && !i.door && s.last) || (r.last && !l.last) || (l.last && !u.last)
  {
    var r := OnInterrupt(s, i);
    var l, u := OnLevel(r, i), After(s, i);
    if i.taken && !i.door && s.last { assert u.log[|s.log|] == Dropped; }
    if r.last && !l.last { assert u.log[|u.log| - 1] == Confirmed; }
    if l.last && !u.last { assert u.log[|u.log| - 1] == Stuck; }
  }

  /** The release fires at true 30 s. */
  lemma ReleaseExactly(door: bool, h: seq<Turn>)
    requires h != [] && Timely(h)
    ensures var l := OnLevel(OnInterrupt(Run(door, h[..|h| - 1]), h[|h| - 1]), h[|h| - 1]);
            l.last && !Run(door, h).last <==> ReleaseFires(door, h)
  {
    hide Clock, Since;
    var g, i := h[..|h| - 1], h[|h| - 1];
    LatchInEveryRun(door, g);
    if g != [] {
      StampIsYoung(door, g);
      assert h[|h| - 2] == g[|g| - 1];
    }
    LatchPart(Run(door, g), i);
    var l := OnLevel(OnInterrupt(Run(door, g), i), i);
    if l.openSince != 0 { SinceExact(i.c, l.openAt); }
  }

  // The documented 50 ms of low level, by the readings of the pin alone, for every recorded close.

  /** A recorded close: the state in which the door was still recorded open, the time of the reading that
      recorded it closed, and whether the live reading of that turn came before. */
  datatype Close = Close(held: State, at: nat, looked: bool)

  /** The close that a turn records. */
  function CloseOf(s: State, i: Turn): Option<Close> {
    var r := OnInterrupt(s, i);
    var l := OnLevel(r, i);
    if s.last && !r.last then Some(Close(s, i.a, false))
    else if r.last && !l.last then Some(Close(r, i.b, true))
    else if l.last && !OnStuck(l, i).last then Some(Close(l, i.c, true))
    else None
  }

  /** The close that the last turn records. */
  function LastClose(door: bool, h: seq<Turn>): Option<Close>
    requires h != []
  {
    CloseOf(Run(door, h[..|h| - 1]), h[|h| - 1])
  }

  /** The live reading of turn j is low, and so is every reading after it that comes before the close. */
  predicate LowSince(h: seq<Turn>, j: nat, looked: bool) {
    && j < |h| && !h[j].live
    && forall k :: j < k < |h| ==> (h[k].taken ==> !h[k].door) && (k < |h| - 1 || looked ==> !h[k].live)
  }

  /** Every reading in more than 50 ms before the close was low. */
  ghost predicate LowFor50(h: seq<Turn>, at: nat, looked: bool) {
    exists j: nat :: LowSince(h, j, looked) && h[j].b + 50 < at
  }

  /** The same for readings that began when the clock showed zero. */
  ghost predicate LowFromZero(h: seq<Turn>, at: nat, looked: bool) {
    exists j: nat :: LowSince(h, j, looked) && h[j].b + 50 < at && Clock(h[j].b) == 0
  }

  /** In a turn whose live reading came at most 50 ms before the close, the interrupt found the door high. */
  predicate HighWithin50(h: seq<Turn>, at: nat) {
    exists k :: 0 <= k < |h| && h[k].taken && h[k].door && at <= h[k].b + 50
  }

  /** The stamp of the confirmation is set and more than 50 ms old. */
  predicate StampOld(s: State, at: nat) {
    s.stableSince != 0 && s.stableAt + 50 < at
  }

  lemma {:induction false} ReadsInOrder(h: seq<Turn>, j: nat, k: nat)
    requires Timely(h) && j <= k < |h|
    ensures h[j].b <= h[k].b
  {
    if j < k {
      assert h[..k + 1][|h[..k + 1]| - 1] == h[k];
      BeforeLast(h[..k + 1], j);
    }
  }

  lemma {:induction false} LastBefore(h: seq<Turn>, at: nat, j: nat) returns (i: nat)
    requires j < |h| && h[j].b + CONFIRM_MS < at
    ensures j <= i < |h| && h[i].b + CONFIRM_MS < at && forall k :: i < k < |h| ==> at <= h[k].b + CONFIRM_MS
    decreases |h|
  {
    i := |h| - 1;
    if at <= h[i].b + CONFIRM_MS {
      i := LastBefore(h[..i], at, j);
    }
  }

  /** A turn whose interrupt does not find the door high leaves it recorded open only if it was so before. */
  lemma NotOpened(s: State, i: Turn)
    ensures After(s, i).last ==> OnInterrupt(s, i).last
    ensures !(i.taken && i.door) && OnInterrupt(s, i).last ==> s.last && OnInterrupt(s, i) == s
  {
  }

  /** A door that is still recorded open has been so since the readings became low. */
  lemma {:induction false} OpenWhileLow(door: bool, h: seq<Turn>, j: nat)
    requires LowSince(h, j, true) && Run(door, h).last && Clock(h[j].b) != 0
    ensures LowStreak(door, h, j)
    decreases |h|
  {
    hide OnInterrupt, Clock, After;
    var g, i := h[..|h| - 1], h[|h| - 1];
    assert Run(door, h) == After(Run(door, g), i);
    NotOpened(Run(door, g), i);
    if j < |g| {
      assert LowSince(g, j, true);
      OpenWhileLow(door, g, j);
    }
    StreakMore(door, h, j);
  }

  /** Readings that have been low for more than 50 ms leave a stamp that old, and no interrupt in between. */
  lemma LowHasStamp(door: bool, g: seq<Turn>, j: nat, at: nat)
    requires Timely(g) && LowSince(g, j, true) && Run(door, g).last && Clock(g[j].b) != 0
    requires g[j].b + CONFIRM_MS < at
    ensures StampOld(Run(door, g), at)
  {
    hide Run, Clock, Since;
    OpenWhileLow(door, g, j);
    StreakHasStamp(door, g, j);
  }

  lemma LowIsNotHigh(h: seq<Turn>, at: nat, looked: bool)
    requires Timely(h) && LowFor50(h, at, looked)
    ensures !HighWithin50(h, at)
  {
    var j: nat :| LowSince(h, j, looked) && h[j].b + CONFIRM_MS < at;
    if HighWithin50(h, at) {
      var k :| 0 <= k < |h| && h[k].taken && h[k].door && at <= h[k].b + CONFIRM_MS;
      if k <= j { ReadsInOrder(h, k, j); }
    }
  }

  /** Where the stamp with which a close is recorded comes from. */
  lemma HeldStamp(s: State, i: Turn)
    requires CloseOf(s, i).Some? && CloseOf(s, i).value.held.stableSince != 0
    ensures var c := CloseOf(s, i).value;
            && (c.looked ==> !i.live) && (!c.looked ==> s.last && c.held == s)
            && ((s.last && s.stableSince == c.held.stableSince && s.stableAt == c.held.stableAt) ||
                (c.looked && c.held.stableAt == i.b))
  {
  }

  /** A stamp with which a close is recorded: the live readings from its turn on are low. */
  lemma StampReads(door: bool, h: seq<Turn>) returns (j: nat)
    requires h != [] && LastClose(door, h).Some? && LastClose(door, h).value.held.stableSince != 0
    ensures var c := LastClose(door, h).value;
            && j < |h| && h[j].b == c.held.stableAt
            && forall k :: j <= k < |h| && (k < |h| - 1 || c.looked) ==> !h[k].live
  {
    hide Run, LowStreak, Clock, CloseOf;
    var g, i, c := h[..|h| - 1], h[|h| - 1], LastClose(door, h).value;
    var s := Run(door, g);
    StampsAreStreaks(door, g);
    HeldStamp(s, i);
    if s.last && s.stableSince == c.held.stableSince && s.stableAt == c.held.stableAt {
      j :| j < |g| && LowStreak(door, g, j) && g[j].b == s.stableAt;
      StreakReads(door, g, j);
      assert forall k :: j <= k < |g| ==> h[k] == g[k];
    } else {
      j := |g|;
    }
  }

  lemma StreakReads(door: bool, h: seq<Turn>, j: nat)
    requires LowStreak(door, h, j)
    ensures forall k :: j <= k < |h| ==> !h[k].live
  {
    hide Run, OnInterrupt;
    forall k | j <= k < |h| ensures !h[k].live {
      assert SeesLow(door, h, k);
    }
  }

  lemma StampIsLow(door: bool, h: seq<Turn>)
    requires h != [] && Timely(h) && LastClose(door, h).Some?
    requires var c := LastClose(door, h).value; StampOld(c.held, c.at) && !HighWithin50(h, c.at)
    ensures var c := LastClose(door, h).value; LowFor50(h, c.at, c.looked)
  {
    hide Run, Clock;
    var c := LastClose(door, h).value;
    CloseTimes(Run(door, h[..|h| - 1]), h[|h| - 1]);
    var j := StampReads(door, h);
    j := LastBefore(h, c.at, j);
    assert LowSince(h, j, c.looked);
  }

  lemma CloseTimes(s: State, i: Turn)
    requires CloseOf(s, i).Some?
    ensures var c := CloseOf(s, i).value;
            && c.held.last && (!c.looked ==> c.at == i.a && c.held == s)
            && (c.looked && !(i.taken && i.door) ==>
                  s.last && OnInterrupt(s, i) == s && (c.held == s || c.held == OnLevel(s, i)))
  {
  }

  /** The stamp that the last turn leaves for the release, or finds for the other two. */
  lemma StampInTurn(s: State, i: Turn)
    requires CloseOf(s, i).Some? && i.a <= i.b
    requires s.last && s.stableSince != 0 ==>
               s.stableSince == Clock(s.stableAt) && s.stableAt <= i.b < s.stableAt + TWO32
    ensures var c := CloseOf(s, i).value;
            && (s.last && s.stableSince != 0 && !(i.taken && i.door) && (c.looked ==> !i.live) ==>
                  c.held.stableSince != 0 && c.held.stableAt == s.stableAt)
            && (c.looked && !i.live && Clock(i.b) != 0 && c.at > i.b ==>
                  c.held.stableSince != 0 && c.held.stableAt <= i.b)
  {
    hide Clock, Since;
  }

  lemma LowIsStamp(door: bool, h: seq<Turn>, j: nat)
    requires h != [] && Timely(h) && LastClose(door, h).Some?
    requires var c := LastClose(door, h).value;
             LowSince(h, j, c.looked) && h[j].b + CONFIRM_MS < c.at && Clock(h[j].b) != 0
    ensures var c := LastClose(door, h).value; StampOld(c.held, c.at)
  {
    hide Run, Clock, Since, CloseOf, OnInterrupt, OnLevel;
    var g, i, c := h[..|h| - 1], h[|h| - 1], LastClose(door, h).value;
    var s := Run(door, g);
    CloseTimes(s, i);
    StampIsRecent(door, h);
    if j < |g| {
      assert LowSince(g, j, true);
      LowHasStamp(door, g, j, c.at);
    }
    StampInTurn(s, i);
  }

  /** In every timely run: a turn records a close without the documented 50 ms of low readings before it
      exactly if an interrupt found the door high in that time, or the stamp of the confirmation was not set
      or not older than 50 ms and the readings were not low since the clock showed zero. */
  lemma CloseTooEarly(door: bool, h: seq<Turn>)
    requires h != [] && Timely(h)
    ensures RecordsClose(door, h) <==> LastClose(door, h).Some?
    ensures LastClose(door, h).Some? ==>
              var c := LastClose(door, h).value;
              !LowFor50(h, c.at, c.looked) <==>
                HighWithin50(h, c.at) || (!StampOld(c.held, c.at) && !LowFromZero(h, c.at, c.looked))
  {
    hide Run, Clock, CloseOf, LowFor50;
    ClosesByCase(door, h);
    if LastClose(door, h).Some? {
      var c := LastClose(door, h).value;
      if LowFor50(h, c.at, c.looked) {
        LowIsNotHigh(h, c.at, c.looked);
        LowGivesStamp(door, h);
      } else {
        if StampOld(c.held, c.at) && !HighWithin50(h, c.at) { StampIsLow(door, h); }
        FromZeroIsLow(h, c.at, c.looked);
      }
    }
  }

  lemma ClosesByCase(door: bool, h: seq<Turn>)
    requires h != []
    ensures RecordsClose(door, h) <==> LastClose(door, h).Some?
  {
    CloseCases(Run(door, h[..|h| - 1]), h[|h| - 1]);
  }

  lemma FromZeroIsLow(h: seq<Turn>, at: nat, looked: bool)
    ensures LowFromZero(h, at, looked) ==> LowFor50(h, at, looked)
  {
    if LowFromZero(h, at, looked) {
      var j: nat :| LowSince(h, j, looked) && h[j].b + CONFIRM_MS < at && Clock(h[j].b) == 0;
      assert LowSince(h, j, looked);
    }
  }

  lemma LowGivesStamp(door: bool, h: seq<Turn>)
    requires h != [] && Timely(h) && LastClose(door, h).Some?
    requires var c := LastClose(door, h).value; LowFor50(h, c.at, c.looked)
    ensures var c := LastClose(door, h).value; StampOld(c.held, c.at) || LowFromZero(h, c.at, c.looked)
  {
    hide Run, Clock, CloseOf;
    var c := LastClose(door, h).value;
    var j: nat :| LowSince(h, j, c.looked) && h[j].b + CONFIRM_MS < c.at;
    if Clock(h[j].b) != 0 { LowIsStamp(door, h, j); }
  }

  /** A close that the last turn confirms. */
  predicate Confirms(door: bool, h: seq<Turn>)
    requires h != []
  {
    var r := OnInterrupt(Run(door, h[..|h| - 1]), h[|h| - 1]);
    r.last && !OnLevel(r, h[|h| - 1]).last
  }

  /** The confirmation itself does not look at the interrupt: a confirmed close comes too early exactly if an
      interrupt found the door high in the last 50 ms while it was still recorded open. */
  lemma ConfirmedTooEarly(door: bool, h: seq<Turn>)
    requires h != [] && Timely(h) && Confirms(door, h)
    ensures LowFor50(h, h[|h| - 1].b, true) <==> !HighWithin50(h, h[|h| - 1].b)
  {
    hide Run, Clock, Since, LowFor50, HighWithin50, LowFromZero;
    var g, i := h[..|h| - 1], h[|h| - 1];
    var s := Run(door, g);
    ConfirmPart(s, i);
    StampIsRecent(door, h);
    SinceExact(i.b, s.stableAt);
    CloseTooEarly(door, h);
  }

  /** In every timely run: once the readings have been low for more than 50 ms, from a time that the clock does
      not show as zero on, the door is recorded closed. */
  lemma ClosedAfter50(door: bool, h: seq<Turn>, j: nat)
    requires Timely(h) && LowSince(h, j, true) && Clock(h[j].b) != 0 && h[j].b + 50 < h[|h| - 1].b
    ensures !Run(door, h).last
  {
    hide Run, Clock, Since;
    if Run(door, h).last {
      OpenWhileLow(door, h, j);
      StreakHasStamp(door, h, j);
    }
  }

  // All of it happens.

  lemma TwoTurns(door: bool, i: Turn, j: Turn)
    ensures [i, j][..1] == [i] && Run(door, [i]) == After(Start(door), i)
    ensures Run(door, [i, j]) == After(After(Start(door), i), j)
  {
    assert [i][..0] == [];
    assert [i, j][..1] == [i];
  }

  lemma ThreeTurns(door: bool, i: Turn, j: Turn, k: Turn)
    ensures [i, j, k][..2] == [i, j] && Run(door, [i, j, k]) == After(After(After(Start(door), i), j), k)
  {
    TwoTurns(door, i, j);
    assert [i, j, k][..2] == [i, j];
  }

  /** A door opened at 5 s is recorded closed at 5.1 s by the next interrupt. */
  lemma DroppedAtOnce()
    ensures var h := [Turn(true, true, true, 5000, 5000, 5000), Turn(true, false, false, 5100, 5100, 5100)];
            Timely(h) && Run(false, h).log == [Opened, Dropped] && RecordsClose(false, h) && !LowFor50(h, 5100, false)
  {
    var i, j := Turn(true, true, true, 5000, 5000, 5000), Turn(true, false, false, 5100, 5100, 5100);
    var h := [i, j];
    TwoTurns(false, i, j);
    assert Timely(h);
    CloseTooEarly(false, h);
  }

  /** One that was read low at 5.1 s and is dropped at 5.2 s had its 50 ms. */
  lemma DroppedInTime()
    ensures var h := [Turn(true, true, true, 5000, 5000, 5000), Turn(false, false, false, 5100, 5100, 5100),
                      Turn(true, false, false, 5200, 5200, 5200)];
            Timely(h) && Run(false, h).log == [Opened, Dropped] && RecordsClose(false, h) && LowFor50(h, 5200, false)
  {
    var i, j, k := Turn(true, true, true, 5000, 5000, 5000), Turn(false, false, false, 5100, 5100, 5100),
                   Turn(true, false, false, 5200, 5200, 5200);
    var h := [i, j, k];
    ThreeTurns(false, i, j, k);
    assert Run(false, h).log == [Opened, Dropped];
    ClosesByCase(false, h);
    assert LowSince(h, 1, false);
  }

  /** One that the interrupt finds high at 5.2 s, and the level low right after, is confirmed closed. */
  lemma ConfirmedAtOnce()
    ensures var h := [Turn(true, true, true, 5000, 5000, 5000), Turn(false, false, false, 5100, 5100, 5100),
                      Turn(true, true, false, 5200, 5200, 5200)];
            && Timely(h) && Run(false, h).log == [Opened, Confirmed] && RecordsClose(false, h)
            && !LowFor50(h, 5200, true)
  {
    var i, j, k := Turn(true, true, true, 5000, 5000, 5000), Turn(false, false, false, 5100, 5100, 5100),
                   Turn(true, true, false, 5200, 5200, 5200);
    var h := [i, j, k];
    ThreeTurns(false, i, j, k);
    var s := After(After(Start(false), i), j);
    assert s == State(true, 5100, 5000, 5100, 5000, [Opened]);
    TwoTurns(false, i, j);
    assert Run(false, h[..2]) == s && Run(false, h).log == [Opened, Confirmed];
    hide Run;
    ClosesByCase(false, h);
    assert h[2] == k && HighWithin50(h, 5200);
    ConfirmedTooEarly(false, h);
  }
}
