/** What the client table says about the clients, in every run: which filters and which name each entry holds,
    whom a publication selects, and what becomes of the sockets and the packet identifiers. */
module BrokerFilters {
  import opened Bytes
  import opened Options
  import opened PacketHandler
  import opened BrokerTable
  import opened BrokerProtocol
  import opened BrokerReplies
  import opened BrokerSessions
  import opened HandlerReplies
  import opened TopicMatch

  /** The filters that a handler has asked for, as the table keeps them. */
  function AskedFilters(acts: seq<Action>): set<seq<byte>> {
    set i | 0 <= i < |acts| && acts[i].AddFilter? :: Kept(acts[i].filter)
  }

  /** The client identifier that it has asked for last. */
  function AskedId(acts: seq<Action>): Option<seq<byte>> {
    if acts == [] then None
    else if acts[|acts| - 1].SetClientId? then Some(acts[|acts| - 1].id)
    else AskedId(acts[..|acts| - 1])
  }

  lemma AskedMore(acts: seq<Action>, a: Action)
    ensures AskedFilters(acts + [a]) == AskedFilters(acts) + (if a.AddFilter? then {Kept(a.filter)} else {})
    ensures AskedId(acts + [a]) == if a.SetClientId? then Some(a.id) else AskedId(acts)
  {
    hide Kept;
    var g := acts + [a];
    assert g[..|acts|] == acts && g[|acts|] == a;
    forall f | f in AskedFilters(acts) ensures f in AskedFilters(g) {
      var i :| 0 <= i < |acts| && acts[i].AddFilter? && Kept(acts[i].filter) == f;
      assert g[i] == acts[i];
    }
    if a.AddFilter? { assert Kept(g[|acts|].filter) in AskedFilters(g); }
  }

  /** The entry holds what has been asked for. */
  predicate EntryTells(slot: Slot, acts: seq<Action>) {
    && SlotOk(slot) && Filters(slot) == AskedFilters(acts)
    && (AskedId(acts).Some? ==>
          var id := CStr(AskedId(acts).value); CStr(slot.clientId) == if |id| < 32 then id else id[..31])
  }

  ghost predicate EntriesTell(steps: seq<Step>, s: State) {
    && (forall tid: nat :: tid in s.tasks && s.tasks[tid].Handler? && s.tasks[tid].idx < |s.slots| ==>
          EntryTells(s.slots[s.tasks[tid].idx], Asked(steps, tid)))
    && ((s.acceptor.Registered? || s.acceptor.Undoing?) && s.acceptor.idx < |s.slots| ==>
          EntryTells(s.slots[s.acceptor.idx], []))
  }

  /** The entry of a handler changes only with its own steps. */
  lemma EntryBefore(s: State, step: Step, tid: nat)
    requires Inv(s) && Enabled(s, step) && step != Spawn(tid)
    requires tid in Do(s, step).tasks && Do(s, step).tasks[tid].Handler?
    ensures tid in s.tasks && s.tasks[tid].Handler? && s.tasks[tid].idx == Do(s, step).tasks[tid].idx < |s.slots|
    ensures TableOk(s.slots) && |Do(s, step).slots| == |s.slots|
    ensures var idx := s.tasks[tid].idx;
            Do(s, step).slots[idx] ==
              if step.SubscribeOne? && step.tid == tid then Subscribed(s.slots[idx], step.filter)
              else if step.SetId? && step.tid == tid then Named(s.slots[idx], step.id)
              else s.slots[idx]
  {
    hide MutexInv, StreamInv, SlotOk, StrNCpy, CStr, PublishChunks, Wants, PubOk;
    HandlersBefore(s, step);
    assert HandlerOwns(s, tid, s.tasks[tid].idx);
    match step
    case SubscribeOne(t, _) => assert HandlerOwns(s, t, s.tasks[t].idx);
    case SetId(t, _) => assert HandlerOwns(s, t, s.tasks[t].idx);
    case Unregister(t) => assert HandlerOwns(s, t, s.tasks[t].idx);
    case UndoRegister => assert AcceptorOwns(s, s.acceptor.idx);
    case _ =>
  }

  /** That of the accept loop is new, and then nobody else's. */
  lemma AcceptorBefore(s: State, step: Step)
    requires Inv(s) && Enabled(s, step) && (Do(s, step).acceptor.Registered? || Do(s, step).acceptor.Undoing?)
    ensures var t := Do(s, step);
            && TableOk(s.slots) && t.acceptor.idx < |s.slots| == |t.slots|
            && if step.Register? then t.slots[t.acceptor.idx] == Filled(s.slots[t.acceptor.idx], t.acceptor.sock)
               else
                 && (s.acceptor.Registered? || s.acceptor.Undoing?) && s.acceptor.idx == t.acceptor.idx
                 && t.slots[t.acceptor.idx] == s.slots[t.acceptor.idx]
  {
    hide MutexInv, StreamInv, SlotOk, StrNCpy, CStr, PublishChunks, Wants, PubOk;
    var t := Do(s, step);
    if !step.Register? {
      assert AcceptorOwns(s, s.acceptor.idx);
      match step
      case SubscribeOne(h, _) => assert HandlerOwns(s, h, s.tasks[h].idx);
      case SetId(h, _) => assert HandlerOwns(s, h, s.tasks[h].idx);
      case Unregister(h) => assert HandlerOwns(s, h, s.tasks[h].idx);
      case _ =>
    }
  }

  lemma EntryOk(s: State, i: nat)
    requires TableOk(s.slots) && i < |s.slots|
    ensures SlotOk(s.slots[i])
  {
  }

  lemma NewEntryTells(slot: Slot, sock: int)
    requires SlotOk(slot)
    ensures EntryTells(Filled(slot, sock), [])
  {
    SubscribedFilters(slot, [], sock);
  }

  /** One more action on an entry. */
  lemma ActionTells(slot: Slot, acts: seq<Action>, a: Action)
    requires EntryTells(slot, acts) && (a.AddFilter? ==> slot.subCount < MAX_SUBS_PER_CLIENT)
    ensures EntryTells(if a.AddFilter? then Subscribed(slot, a.filter) else if a.SetClientId? then Named(slot, a.id) else slot,
                       acts + [a])
  {
    hide AskedFilters, AskedId, Filters, SlotOk, CStr, StrNCpy, Kept;
    AskedMore(acts, a);
    match a
    case AddFilter(f) => SubscribedFilters(slot, f, 0); SubscribedId(slot, f);
    case SetClientId(id) => SlotsStayOk(slot, 0, id); NamedKeeps(slot, id); NamedFilters(slot, id);
    case _ =>
  }

  lemma SubscribedId(slot: Slot, f: seq<byte>)
    requires SlotOk(slot) && slot.subCount < MAX_SUBS_PER_CLIENT
    ensures Subscribed(slot, f).clientId == slot.clientId
  {
  }

  lemma NamedFilters(slot: Slot, id: seq<byte>)
    requires SlotOk(slot)
    ensures SlotOk(Named(slot, id)) && Filters(Named(slot, id)) == Filters(slot)
  {
    hide StrNCpy, CStr;
    SlotsStayOk(slot, 0, id);
  }

  lemma HandlerTells(steps: seq<Step>, s: State, step: Step, tid: nat)
    requires Inv(s) && Enabled(s, step) && EntriesTell(steps, s)
    requires tid in Do(s, step).tasks && Do(s, step).tasks[tid].Handler? && Do(s, step).tasks[tid].idx < |Do(s, step).slots|
    ensures EntryTells(Do(s, step).slots[Do(s, step).tasks[tid].idx], AskedAfter(Asked(steps, tid), step, tid))
  {
    hide Inv, EntryTells, Subscribed, Named;
    var acts := Asked(steps, tid);
    if step == Spawn(tid) {
    } else {
      EntryBefore(s, step, tid);
      hide Do;
      var slot := s.slots[s.tasks[tid].idx];
      assert EntryTells(slot, acts);
      match step
      case SetId(i, id) => if i == tid { ActionTells(slot, acts, SetClientId(id)); }
      case SendReply(i, bytes) => if i == tid { ActionTells(slot, acts, Reply(bytes)); }
      case SubscribeOne(i, filter) => if i == tid { ActionTells(slot, acts, AddFilter(filter)); }
      case PublishBegin(i, topic, payload, _) => if i == tid { ActionTells(slot, acts, Publish(topic, payload)); }
      case _ =>
    }
  }

  lemma EntriesStep(steps: seq<Step>, s: State, step: Step)
    requires Inv(s) && Enabled(s, step) && EntriesTell(steps, s)
    ensures EntriesTell(steps + [step], Do(s, step))
  {
    hide Inv, EntryTells, Enabled, Do, AskedAfter, SlotOk;
    InvTyped(s);
    var t, run := Do(s, step), steps + [step];
    assert run[..|steps|] == steps;
    forall tid: nat | tid in t.tasks && t.tasks[tid].Handler? && t.tasks[tid].idx < |t.slots|
      ensures EntryTells(t.slots[t.tasks[tid].idx], Asked(run, tid))
    {
      HandlerTells(steps, s, step, tid);
    }
    if t.acceptor.Registered? || t.acceptor.Undoing? {
      AcceptorBefore(s, step);
      if step.Register? { EntryOk(s, t.acceptor.idx); NewEntryTells(s.slots[t.acceptor.idx], t.slots[t.acceptor.idx].sock); }
    }
  }

  /** In every run: the entry of a client holds exactly the filters that its handler has asked for since the
      connection was accepted, each cut to 63 bytes, and the name it has asked for last, cut to 31. */
  lemma {:induction false} EntriesInEveryRun(steps: seq<Step>)
    requires Exec(steps).Some?
    ensures EntriesTell(steps, Exec(steps).value)
    decreases |steps|
  {
    hide Inv, Enabled, Do, EntriesTell, Initial;
    if steps == [] {
      NoEntries();
    } else {
      var init, step := steps[..|steps| - 1], steps[|steps| - 1];
      EntriesInEveryRun(init);
      RunKeeps(init);
      EntriesStep(init, Exec(init).value, step);
      assert steps == init + [step];
    }
  }

  lemma NoEntries()
    ensures EntriesTell([], Initial())
  {
  }

  /** A handler on the socket has asked for a filter that matches the topic. */
  ghost predicate Subscriber(steps: seq<Step>, s: State, sock: int, topic: seq<byte>) {
    exists tid: nat, f :: tid in s.tasks && s.tasks[tid].Handler? && s.tasks[tid].sock == sock
      && f in AskedFilters(Asked(steps, tid)) && TopicMatches(f, topic)
  }

  /** In every run: a publication selects exactly the clients whose handlers have asked for a filter that matches
      its topic, whatever else happened before. */
  lemma SelectsSubscribers(steps: seq<Step>, step: Step, sock: int)
    requires Exec(steps).Some? && WellTyped(Exec(steps).value) && Enabled(Exec(steps).value, step) && step.PublishBegin?
    ensures var s := Exec(steps).value;
            var p := Current(Do(s, step));
            && p.topic == step.topic && p.payload == step.payload && p.qos == step.qos && TableOk(p.table)
            && (Selected(p.table, p.topic, sock) <==> Subscriber(steps, s, sock, step.topic))
  {
    hide Exec, Inv, TableOk, SlotOk, Filters, AskedFilters, TopicMatches, PublishChunks, CStr, EntriesTell;
    EntriesInEveryRun(steps);
    RunKeeps(steps);
    var s := Exec(steps).value;
    assert forall i :: 0 <= i < |s.slots| ==> SlotOk(s.slots[i]) by { SlotsOk(s.slots); }
    if Selected(s.slots, step.topic, sock) {
      SelectedIsSubscriber(steps, s, sock, step.topic);
    }
    if Subscriber(steps, s, sock, step.topic) { SubscriberIsSelected(steps, s, sock, step.topic); }
  }

  lemma SelectedIsSubscriber(steps: seq<Step>, s: State, sock: int, topic: seq<byte>)
    requires Inv(s) && EntriesTell(steps, s) && TableOk(s.slots) && Selected(s.slots, topic, sock)
    ensures Subscriber(steps, s, sock, topic)
  {
    hide TableOk, SlotOk, Filters, AskedFilters, TopicMatches, MutexInv, StreamInv, CStr;
    var i: nat :| i < |s.slots| && s.slots[i].active && s.slots[i].sock == sock
                  && exists f :: f in Filters(s.slots[i]) && TopicMatches(f, topic);
    var f :| f in Filters(s.slots[i]) && TopicMatches(f, topic);
    NothingAsked();
    if !AcceptorOwns(s, i) {
      var tid: nat :| HandlerOwns(s, tid, i);
      assert f in AskedFilters(Asked(steps, tid));
    }
  }

  lemma SubscriberIsSelected(steps: seq<Step>, s: State, sock: int, topic: seq<byte>)
    requires Inv(s) && EntriesTell(steps, s) && TableOk(s.slots) && Subscriber(steps, s, sock, topic)
    ensures Selected(s.slots, topic, sock)
  {
    hide TableOk, SlotOk, Filters, AskedFilters, TopicMatches, MutexInv, StreamInv, CStr;
    var tid: nat, f :| tid in s.tasks && s.tasks[tid].Handler? && s.tasks[tid].sock == sock
      && f in AskedFilters(Asked(steps, tid)) && TopicMatches(f, topic);
    assert HandlerOwns(s, tid, s.tasks[tid].idx);
  }

  lemma NothingAsked()
    ensures AskedFilters([]) == {}
  {
  }

  // Packet identifiers.

  /** The identifier of the publication after `h`: it starts at 1, and moves on after each one at QoS 1 or 2. */
  function NextId(h: seq<Publication>): nat {
    if h == [] then 1
    else
      var p := h[|h| - 1];
      if p.qos > 0 then (p.pktId + 1) % 65536 else p.pktId
  }

  ghost predicate IdsInv(s: State) {
    && (forall i :: 0 <= i < |s.history| ==> s.history[i].pktId == NextId(s.history[..i]))
    && (if Active(s) && s.history != [] then s.pktId == Current(s).pktId else s.pktId == NextId(s.history))
  }

  lemma IdsBegin(s: State, p: Publication, t: State)
    requires IdsInv(s) && !Active(s) && p.pktId == s.pktId
    requires t.history == s.history + [p] && t.pktId == s.pktId && Active(t)
    ensures IdsInv(t)
  {
    forall i | 0 <= i < |t.history| ensures t.history[i].pktId == NextId(t.history[..i]) {
      assert t.history[..i] == s.history[..i];
      assert s.history[..|s.history|] == s.history;
    }
  }

  /** The steps that neither begin nor end a publication. */
  lemma SameIds(s: State, step: Step)
    requires Inv(s) && Enabled(s, step) && !step.PublishBegin? && !step.PublishEnd?
    ensures var t := Do(s, step);
            t.pktId == s.pktId && t.history == s.history && (Active(t) <==> Active(s))
  {
    hide StreamInv, TableOk, SlotOk, OwnerInv, SocketsOpen, PublishChunks, Wants, StrNCpy, CStr, PubOk;
    if step.PublishSend? || step.PublishNext? {
      assert s.mutex == Some(step.tid);
    }
  }

  lemma EndId(s: State, step: Step)
    requires Inv(s) && Enabled(s, step) && step.PublishEnd?
    ensures var t := Do(s, step);
            && t.history == s.history && !Active(t) && Active(s) && s.history != []
            && t.pktId == if Current(s).qos > 0 then (s.pktId + 1) % 65536 else s.pktId
  {
    hide StreamInv, TableOk, SlotOk, OwnerInv, SocketsOpen, PublishChunks, Wants, StrNCpy, CStr, PubOk;
    assert s.mutex == Some(step.tid);
  }

  lemma BeginId(s: State, step: Step)
    requires Inv(s) && Enabled(s, step) && step.PublishBegin?
    ensures var t := Do(s, step);
            && t.history != [] && t.history == s.history + [Current(t)] && Current(t).pktId == s.pktId
            && t.pktId == s.pktId && Active(t) && !Active(s)
  {
    hide StreamInv, TableOk, SlotOk, OwnerInv, SocketsOpen, PublishChunks, Wants, StrNCpy, CStr, PubOk;
  }

  lemma IdsStep(s: State, step: Step)
    requires Inv(s) && Enabled(s, step) && IdsInv(s)
    ensures IdsInv(Do(s, step))
  {
    hide Inv, Enabled, Do, Active;
    InvTyped(s);
    if step.PublishBegin? {
      BeginId(s, step);
      IdsBegin(s, Current(Do(s, step)), Do(s, step));
    } else if step.PublishEnd? {
      EndId(s, step);
    } else {
      SameIds(s, step);
    }
  }

  /** In every run: the publications carry the identifiers in turn. */
  lemma {:induction false} IdsInEveryRun(steps: seq<Step>)
    requires Exec(steps).Some?
    ensures IdsInv(Exec(steps).value)
    decreases |steps|
  {
    hide Inv, Enabled, Do, IdsInv, Initial;
    if steps == [] {
      NoIds();
    } else {
      IdsInEveryRun(steps[..|steps| - 1]);
      RunKeeps(steps[..|steps| - 1]);
      IdsStep(Exec(steps[..|steps| - 1]).value, steps[|steps| - 1]);
    }
  }

  lemma NoIds()
    ensures IdsInv(Initial())
  {
  }

  // Sockets.

  /** Every socket that was ever accepted is closed, or that of an active entry, or just being registered. */
  ghost predicate Accounted(s: State) {
    forall sock :: sock in s.known ==>
      || sock in s.closed || s.acceptor == Accepted(sock)
      || exists i :: 0 <= i < |s.slots| && s.slots[i].active && s.slots[i].sock == sock
  }

  /** An entry that stops showing its socket has closed it. */
  lemma EntryShows(s: State, step: Step, i: nat)
    requires Inv(s) && Enabled(s, step) && i < |s.slots| && s.slots[i].active
    ensures var t := Do(s, step);
            && |t.slots| == |s.slots|
            && ((t.slots[i].active && t.slots[i].sock == s.slots[i].sock) || s.slots[i].sock in t.closed)
  {
    hide MutexInv, StreamInv, OwnerInv, SlotOk, StrNCpy, CStr, PublishChunks, Wants, PubOk;
  }

  lemma SocketBefore(s: State, step: Step, sock: int)
    requires Inv(s) && Enabled(s, step)
    ensures var t := Do(s, step);
            && (sock in t.known ==> sock in s.known || t.acceptor == Accepted(sock))
            && (sock in s.closed ==> sock in t.closed)
            && (s.acceptor == Accepted(sock) ==>
                  || t.acceptor == s.acceptor || sock in t.closed
                  || exists i :: 0 <= i < |t.slots| && t.slots[i].active && t.slots[i].sock == sock)
  {
    hide MutexInv, StreamInv, OwnerInv, SlotOk, StrNCpy, CStr, PublishChunks, Wants, PubOk;
    if step.Register? && step.idx >= 0 {
      assert Do(s, step).slots[step.idx] == Filled(s.slots[step.idx], s.acceptor.sock);
    }
  }

  lemma AccountedStep(s: State, step: Step)
    requires Inv(s) && Enabled(s, step) && Accounted(s)
    ensures Accounted(Do(s, step))
  {
    hide Inv, Enabled, Do;
    InvTyped(s);
    var t := Do(s, step);
    forall sock | sock in t.known
      ensures sock in t.closed || t.acceptor == Accepted(sock)
              || exists i :: 0 <= i < |t.slots| && t.slots[i].active && t.slots[i].sock == sock
    {
      SocketBefore(s, step, sock);
      if sock in s.known && sock !in s.closed && s.acceptor != Accepted(sock) {
        var i :| 0 <= i < |s.slots| && s.slots[i].active && s.slots[i].sock == sock;
        EntryShows(s, step, i);
      }
    }
  }

  /** In every run no socket is lost: one that is not closed is that of an active entry, or the accept loop is
      about to register it. */
  lemma {:induction false} NoSocketLost(steps: seq<Step>)
    requires Exec(steps).Some?
    ensures Accounted(Exec(steps).value)
    decreases |steps|
  {
    hide Inv, Enabled, Do, Accounted, Initial;
    if steps == [] {
      NoSockets();
    } else {
      NoSocketLost(steps[..|steps| - 1]);
      RunKeeps(steps[..|steps| - 1]);
      AccountedStep(Exec(steps[..|steps| - 1]).value, steps[|steps| - 1]);
    }
  }

  lemma NoSockets()
    ensures Accounted(Initial())
  {
  }

  // A client goes and another takes its entry.

  lemma Extend(run: seq<Step>, u: State, step: Step) returns (run': seq<Step>, u': State)
    requires Exec(run) == Some(u) && WellTyped(u) && Enabled(u, step)
    ensures u' == Do(u, step) && Exec(run') == Some(u') && WellTyped(u')
  {
    hide Do, Enabled, Inv;
    run', u' := run + [step], Do(u, step);
    assert run'[..|run|] == run;
    RunKeeps(run');
    InvTyped(u');
  }

  /** A client comes on `sock` to an empty table and gets a handler. */
  lemma Comes(run: seq<Step>, u: State, sock: int, tid: nat) returns (run': seq<Step>, u': State)
    requires Exec(run) == Some(u) && WellTyped(u) && u.acceptor == Waiting && u.mutex == None && u.tasks == map[]
    requires sock !in u.known && !u.slots[0].active
    ensures Exec(run') == Some(u') && WellTyped(u') && u'.acceptor == Waiting && u'.mutex == None
    ensures u'.tasks == map[tid := Handler(0, sock, NoCall, false)] && u'.slots == u.slots[0 := Filled(u.slots[0], sock)]
    ensures u'.known == u.known + {sock} && u'.closed == u.closed
  {
    hide Exec, StrNCpy;
    run', u' := Extend(run, u, Arrive(sock));
    run', u' := Extend(run', u', Register(0));
    run', u' := Extend(run', u', Spawn(tid));
  }

  /** The client stores a filter. */
  lemma StoresOne(run: seq<Step>, u: State, sock: int, tid: nat, filter: seq<byte>) returns (run': seq<Step>, u': State)
    requires Exec(run) == Some(u) && WellTyped(u) && u.mutex == None
    requires u.tasks == map[tid := Handler(0, sock, NoCall, false)] && u.slots[0].subCount == 0
    ensures Exec(run') == Some(u') && WellTyped(u') && u' == u.(slots := u.slots[0 := Subscribed(u.slots[0], filter)])
  {
    hide Exec, StrNCpy, Subscribed, SlotOk, Wants, PublishChunks;
    run', u' := Extend(run, u, SubscribeBegin(tid));
    run', u' := Extend(run', u', SubscribeOne(tid, filter));
    run', u' := Extend(run', u', SubscribeEnd(tid));
    assert u'.tasks == u.tasks;
  }

  /** The client leaves. */
  lemma Leaves(run: seq<Step>, u: State, sock: int, tid: nat) returns (run': seq<Step>, u': State)
    requires Exec(run) == Some(u) && WellTyped(u) && u.acceptor == Waiting && u.mutex == None
    requires u.tasks == map[tid := Handler(0, sock, NoCall, false)] && u.slots[0].active && u.slots[0].sock == sock
    ensures Exec(run') == Some(u') && WellTyped(u') && u'.acceptor == Waiting && u'.mutex == None
    ensures u'.tasks == map[] && !u'.slots[0].active && u'.known == u.known && u'.closed == u.closed + {sock}
  {
    hide Exec, SlotOk, Wants, PublishChunks;
    run', u' := Extend(run, u, Leave(tid));
    run', u' := Extend(run', u', Unregister(tid));
  }

  lemma SubscribedFields(s: Slot, filter: seq<byte>)
    requires SlotOk(s) && s.subCount < MAX_SUBS_PER_CLIENT
    ensures Subscribed(s, filter).active == s.active && Subscribed(s, filter).sock == s.sock
  {
  }

  /** A client on socket 5 subscribes and leaves; one on socket 6 gets its entry and holds nothing, and socket 5
      is closed. */
  lemma NextClientStartsEmpty(filter: seq<byte>) returns (run: seq<Step>)
    ensures Exec(run).Some?
    ensures var u := Exec(run).value;
            && TableOk(u.slots) && u.slots[0].active && u.slots[0].sock == 6 && Filters(u.slots[0]) == {}
            && u.closed == {5} && u.known == {5, 6}
  {
    hide Exec, Filled, Filters, Inv;
    var u: State;
    Start();
    run, u := Comes([], Initial(), 5, 1);
    FilledFields(EmptySlot(), 5);
    SubscribedFields(u.slots[0], filter);
    run, u := StoresOne(run, u, 5, 1, filter);
    run, u := Leaves(run, u, 5, 1);
    var slot := u.slots[0];
    FilledFields(slot, 6);
    run, u := Comes(run, u, 6, 2);
    SubscribedFilters(slot, [], 6);
  }

  lemma FilledFields(s: Slot, sock: int)
    ensures Filled(s, sock).active && Filled(s, sock).sock == sock && Filled(s, sock).subCount == 0
  {
  }

  lemma Start()
    ensures Exec([]) == Some(Initial()) && WellTyped(Initial())
  {
    InitialInv();
  }
}
