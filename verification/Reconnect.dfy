// What a node keeps from an earlier connection, over whole runs of the protocol.  Two history
// variables are carried along a run for each open connection: what its node held when it was accepted,
// and everything that has been put on its channel since.
module Reconnect {
  import opened Seqs
  import opened Text
  import opened XtRecentProc
  import opened Messages
  import opened Wire
  import opened Replica
  import opened Protocol

  datatype Memory = Memory(kept: Data, sent: seq<Packet>)

  type Memories = map<Fd, Memory>

  /** What a step has put on a channel; a delivery only takes something off. */
  function Added(before: seq<Packet>, after: seq<Packet>): seq<Packet> {
    if |before| <= |after| then after[|before|..] else []
  }

  /** The memories once a step has led from s to u. */
  function Remembered(h: Memories, s: System, u: System): Memories {
    map fd | fd in u.conns && u.conns[fd].node in u.backups ::
      if fd in s.conns && fd in h then Memory(h[fd].kept, h[fd].sent + Added(s.conns[fd].chan, u.conns[fd].chan))
      else Memory(u.backups[u.conns[fd].node].data, [])
  }

  ghost function History(s: System, h: Memories, steps: seq<Step>): Memories
    requires Run(s, steps).Some?
    decreases steps
  {
    if steps == [] then h
    else History(Do(s, steps[0]), Remembered(h, s, Do(s, steps[0])), steps[1..])
  }

  /** A recent slot that something was sent for is going to be as it is at the master; any other stays as
      it was when the connection was accepted. */
  predicate Told(v: Option<Value>, m: Option<Value>, kept: Option<Value>, touched: bool) {
    v == if touched then m else kept
  }

  ghost predicate AllTold(master: Data, conns: map<Fd, Conn>, backups: map<Node, Backup>, h: Memories)
    requires Linked(conns, backups) && h.Keys == conns.Keys
  {
    forall fd, t, ip | fd in conns ::
      var slot := RecentSlot(t, ip);
      Told(InView(conns, backups, fd, slot), At(master, slot), At(h[fd].kept, slot), Touched(h[fd].sent, slot))
  }

  /** While nobody is counted, nothing has been sent about recent entries. */
  ghost predicate Untold(draining: bool, count: int, h: Memories) {
    draining && count == 0 ==> forall fd, t, ip | fd in h :: !Touched(h[fd].sent, RecentSlot(t, ip))
  }

  ghost predicate Recalls(s: System, h: Memories) {
    && Linked(s.conns, s.backups) && h.Keys == s.conns.Keys
    && AllTold(s.master, s.conns, s.backups, h) && Untold(s.draining, s.count, h)
  }

  // ---------------------------------------------------------------------------
  // What is sent on a channel

  lemma TouchedConcat(a: seq<Packet>, b: seq<Packet>, slot: Slot)
    ensures Touched(a + b, slot) <==> Touched(a, slot) || Touched(b, slot)
  {
    if Touched(a, slot) {
      var i :| 0 <= i < |a| && Effect(a[i], slot) != Keep;
      assert (a + b)[i] == a[i];
    }
    if Touched(b, slot) {
      var i :| 0 <= i < |b| && Effect(b[i], slot) != Keep;
      assert (a + b)[|a| + i] == b[i];
    }
  }

  lemma TouchedOne(a: seq<Packet>, p: Packet, slot: Slot)
    ensures Touched(a + [p], slot) <==> Touched(a, slot) || Effect(p, slot) != Keep
  {
    TouchedConcat(a, [p], slot);
    assert [p][0] == p;
  }

  lemma AddedIs(before: seq<Packet>, more: seq<Packet>)
    ensures Added(before, before + more) == more
  {
  }

  lemma Keys(h: Memories, s: System, u: System)
    requires Linked(u.conns, u.backups)
    ensures Remembered(h, s, u).Keys == u.conns.Keys
  {
  }

  /** What has been sent on a connection that was open before. */
  lemma SentOn(h: Memories, s: System, u: System, fd: Fd, ps: seq<Packet>)
    requires Linked(u.conns, u.backups) && fd in s.conns && fd in h && fd in u.conns
    requires u.conns[fd].chan == s.conns[fd].chan + ps
    ensures fd in Remembered(h, s, u) && Remembered(h, s, u)[fd] == Memory(h[fd].kept, h[fd].sent + ps)
  {
    AddedIs(s.conns[fd].chan, ps);
  }

  lemma NothingSentOn(h: Memories, s: System, u: System, fd: Fd)
    requires Linked(u.conns, u.backups) && fd in s.conns && fd in h && fd in u.conns
    requires u.conns[fd].chan == s.conns[fd].chan || |u.conns[fd].chan| < |s.conns[fd].chan|
    ensures fd in Remembered(h, s, u) && Remembered(h, s, u)[fd] == h[fd]
  {
    assert h[fd].sent + [] == h[fd].sent;
  }

  /** A connection that was not there before. */
  lemma NewMemory(h: Memories, s: System, u: System, fd: Fd)
    requires Linked(u.conns, u.backups) && fd !in s.conns && fd in u.conns
    ensures fd in Remembered(h, s, u) && Remembered(h, s, u)[fd] == Memory(u.backups[u.conns[fd].node].data, [])
  {
  }

  // ---------------------------------------------------------------------------
  // Steps

  /** Nothing is sent, and no backup's view changes. */
  lemma SameRecalls(h: Memories, s: System, u: System)
    requires Recalls(s, h) && Linked(u.conns, u.backups) && u.conns.Keys <= s.conns.Keys && u.master == s.master
    requires forall fd | fd in u.conns :: u.conns[fd].chan == s.conns[fd].chan || |u.conns[fd].chan| < |s.conns[fd].chan|
    requires forall fd, t, ip | fd in u.conns ::
               InView(u.conns, u.backups, fd, RecentSlot(t, ip)) == InView(s.conns, s.backups, fd, RecentSlot(t, ip))
    requires Untold(u.draining, u.count, h)
    ensures Recalls(u, Remembered(h, s, u))
  {
    hide InView, At, Touched, Linked, Remembered;
    Keys(h, s, u);
    forall fd | fd in u.conns ensures Remembered(h, s, u)[fd] == h[fd] {
      NothingSentOn(h, s, u, fd);
    }
  }

  /** The master changes alone. */
  lemma SilentRecalls(h: Memories, s: System, u: System)
    requires Recalls(s, h) && s.draining && s.count == 0
    requires u.conns == s.conns && u.backups == s.backups && u.draining && u.count == 0
    ensures Recalls(u, Remembered(h, s, u))
  {
    hide InView, At, Touched, Linked, Remembered;
    Keys(h, s, u);
    forall fd | fd in u.conns ensures Remembered(h, s, u)[fd] == h[fd] {
      NothingSentOn(h, s, u, fd);
    }
  }

  /** One slot of one backup when a packet is sent to all. */
  lemma BroadcastTold(s: System, m: Memory, p: Packet, master: Data, fd: Fd, slot: Slot)
    requires Linked(s.conns, s.backups) && fd in s.conns && Applied(s.master, p, master)
    requires Told(InView(s.conns, s.backups, fd, slot), At(s.master, slot), At(m.kept, slot), Touched(m.sent, slot))
    ensures fd in Broadcast(s.conns, p) && Broadcast(s.conns, p)[fd].node in s.backups
    ensures Told(InView(Broadcast(s.conns, p), s.backups, fd, slot), At(master, slot), At(m.kept, slot), Touched(m.sent + [p], slot))
  {
    hide At, Touched, Final, Effect, OneService;
    TouchedOne(m.sent, p, slot);
    BroadcastView(s.conns, s.backups, p, fd, slot);
  }

  lemma BroadcastRecalls(h: Memories, s: System, u: System, p: Packet)
    requires Recalls(s, h) && Applied(s.master, p, u.master)
    requires u.conns == Broadcast(s.conns, p) && u.backups == s.backups && u.draining == s.draining && u.count == s.count
    requires s.draining && s.count == 0 ==> p.Http?
    ensures Recalls(u, Remembered(h, s, u))
  {
    hide At, Touched, InView, Remembered, Applied, Told;
    Keys(h, s, u);
    forall fd | fd in s.conns ensures Remembered(h, s, u)[fd] == Memory(h[fd].kept, h[fd].sent + [p]) {
      SentOn(h, s, u, fd, [p]);
    }
    forall fd, t, ip | fd in s.conns
      ensures var (m, slot) := (h[fd], RecentSlot(t, ip));
              Told(InView(u.conns, u.backups, fd, slot), At(u.master, slot), At(m.kept, slot), Touched(m.sent + [p], slot))
    {
      BroadcastTold(s, h[fd], p, u.master, fd, RecentSlot(t, ip));
    }
    forall fd, t, ip | fd in s.conns && p.Http? ensures Touched(h[fd].sent + [p], RecentSlot(t, ip)) == Touched(h[fd].sent, RecentSlot(t, ip)) {
      TouchedOne(h[fd].sent, p, RecentSlot(t, ip));
    }
  }

  lemma SnapshotFinal(d: Data, ps: seq<Packet>, v: Option<Value>, slot: Slot)
    requires MasterSound(d) && IsSnapshot(d, ps)
    ensures Final(v, ps, slot) == if Touched(ps, slot) then At(d, slot) else v
  {
    SnapshotEffects(d, ps, slot);
    FinalUniform(v, ps, slot, At(d, slot));
  }

  function Sent(s: System, fd: Fd, ps: seq<Packet>): map<Fd, Conn>
    requires fd in s.conns
  {
    s.conns[fd := s.conns[fd].(chan := s.conns[fd].chan + ps, synced := true)]
  }

  /** One slot of the backup that is sent a snapshot. */
  lemma SnapshotTold(s: System, m: Memory, fd: Fd, ps: seq<Packet>, slot: Slot)
    requires Linked(s.conns, s.backups) && fd in s.conns && MasterSound(s.master) && IsSnapshot(s.master, ps)
    requires Told(InView(s.conns, s.backups, fd, slot), At(s.master, slot), At(m.kept, slot), Touched(m.sent, slot))
    ensures Told(InView(Sent(s, fd, ps), s.backups, fd, slot), At(s.master, slot), At(m.kept, slot), Touched(m.sent + ps, slot))
  {
    hide At, Touched, Final, MasterSound, IsSnapshot;
    TouchedConcat(m.sent, ps, slot);
    FinalConcat(At(s.backups[s.conns[fd].node].data, slot), s.conns[fd].chan, ps, slot);
    SnapshotFinal(s.master, ps, InView(s.conns, s.backups, fd, slot), slot);
  }

  lemma SnapshotRecalls(h: Memories, s: System, u: System, fd: Fd, ps: seq<Packet>)
    requires Recalls(s, h) && MasterSound(s.master) && IsSnapshot(s.master, ps) && fd in s.conns
    requires u.conns == Sent(s, fd, ps) && u.backups == s.backups && u.master == s.master && !u.draining
    ensures Recalls(u, Remembered(h, s, u))
  {
    hide At, Touched, Remembered, MasterSound, IsSnapshot, Told, Final;
    Keys(h, s, u);
    SentOn(h, s, u, fd, ps);
    forall gd | gd in s.conns && gd != fd ensures Remembered(h, s, u)[gd] == h[gd] {
      NothingSentOn(h, s, u, gd);
    }
    forall t, ip
      ensures var (m, slot) := (h[fd], RecentSlot(t, ip));
              Told(InView(u.conns, u.backups, fd, slot), At(u.master, slot), At(m.kept, slot), Touched(m.sent + ps, slot))
    {
      SnapshotTold(s, h[fd], fd, ps, RecentSlot(t, ip));
    }
  }

  lemma AcceptedView(s: System, fd: Fd, node: Node, gd: Fd, slot: Slot)
    requires Linked(s.conns, s.backups) && Enabled(s, Accept(fd, node)) && (gd in s.conns || gd == fd)
    ensures var u := Connected(s, fd, node);
            && Linked(u.conns, u.backups)
            && InView(u.conns, u.backups, gd, slot)
               == if gd == fd then At(u.backups[node].data, slot) else InView(s.conns, s.backups, gd, slot)
  {
    hide At, Arrived;
  }

  lemma NothingTouches(slot: Slot)
    ensures !Touched([], slot)
  {
  }

  /** The memories after an accept. */
  lemma AcceptedMemories(h: Memories, s: System, fd: Fd, node: Node)
    requires Linked(s.conns, s.backups) && h.Keys == s.conns.Keys && Enabled(s, Accept(fd, node))
    ensures var h' := Remembered(h, s, Connected(s, fd, node));
            && h'.Keys == s.conns.Keys + {fd} && h'[fd] == Memory(Arrived(s.backups, node).data, [])
            && forall gd | gd in s.conns :: h'[gd] == h[gd]
  {
    hide Arrived, Remembered;
    var u := Connected(s, fd, node);
    Keys(h, s, u);
    NewMemory(h, s, u, fd);
    forall gd | gd in s.conns ensures Remembered(h, s, u)[gd] == h[gd] {
      NothingSentOn(h, s, u, gd);
    }
  }

  lemma AcceptedTold(h: Memories, s: System, fd: Fd, node: Node, gd: Fd, slot: Slot)
    requires Linked(s.conns, s.backups) && h.Keys == s.conns.Keys && Enabled(s, Accept(fd, node))
    requires gd in s.conns || gd == fd
    requires gd in s.conns ==>
               Told(InView(s.conns, s.backups, gd, slot), At(s.master, slot), At(h[gd].kept, slot), Touched(h[gd].sent, slot))
    ensures var u := Connected(s, fd, node);
            var h' := Remembered(h, s, u);
            && Linked(u.conns, u.backups) && gd in h'
            && Told(InView(u.conns, u.backups, gd, slot), At(u.master, slot), At(h'[gd].kept, slot), Touched(h'[gd].sent, slot))
  {
    hide At, Arrived, InView, Touched, Linked, Remembered;
    NothingTouches(slot);
    AcceptedView(s, fd, node, gd, slot);
    AcceptedMemories(h, s, fd, node);
  }

  lemma AcceptRecalls(h: Memories, s: System, fd: Fd, node: Node)
    requires Recalls(s, h) && Enabled(s, Accept(fd, node))
    ensures Recalls(Connected(s, fd, node), Remembered(h, s, Connected(s, fd, node)))
  {
    hide At, InView, Remembered, Arrived, Touched, Told;
    AcceptedMemories(h, s, fd, node);
    AcceptedTold(h, s, fd, node, fd, RecentSlot("", ""));
    var u := Connected(s, fd, node);
    forall gd, t, ip | gd in u.conns
      ensures var (m, slot) := (Remembered(h, s, u)[gd], RecentSlot(t, ip));
              Told(InView(u.conns, u.backups, gd, slot), At(u.master, slot), At(m.kept, slot), Touched(m.sent, slot))
    {
      AcceptedTold(h, s, fd, node, gd, RecentSlot(t, ip));
    }
    forall t, ip ensures !Touched([], RecentSlot(t, ip)) {
      NothingTouches(RecentSlot(t, ip));
    }
  }

  lemma DropRecalls(h: Memories, s: System, fd: Fd)
    requires Recalls(s, h) && fd in s.conns
    ensures Recalls(Dropped(s, fd), Remembered(h, s, Dropped(s, fd)))
  {
    hide At, Final, Told;
    SameRecalls(h, s, Dropped(s, fd));
  }

  lemma LoseRecalls(h: Memories, s: System, fd: Fd, nobody: Node)
    requires Recalls(s, h) && Enabled(s, Lose(fd, nobody))
    ensures Recalls(Lost(s, fd, nobody), Remembered(h, s, Lost(s, fd, nobody)))
  {
    hide At, InView, Told, AllTold;
    var u := Lost(s, fd, nobody);
    LostView(s, fd, nobody, fd, RecentSlot("", ""));
    forall gd, t, ip | gd in u.conns
      ensures InView(u.conns, u.backups, gd, RecentSlot(t, ip)) == InView(s.conns, s.backups, gd, RecentSlot(t, ip))
    {
      LostView(s, fd, nobody, gd, RecentSlot(t, ip));
    }
    SameRecalls(h, s, u);
  }

  lemma DeliveredView(s: System, fd: Fd, gd: Fd, slot: Slot)
    requires Inv(s) && Enabled(s, Deliver(fd)) && gd in s.conns
    ensures var u := Delivered(s, fd);
            && gd in u.conns && u.conns[gd].node in u.backups
            && InView(u.conns, u.backups, gd, slot) == InView(s.conns, s.backups, gd, slot)
  {
    var c := s.conns[fd];
    assert Carried(c.chan[0]) && OneService(s.backups[c.node].data.http);
    hide Inv, Carried, OneService, Apply, OnWire, Effect, At;
    if gd == fd {
      ApplyEffect(s.backups[c.node].data, OnWire(c.chan[0]), slot);
      WireKeepsEffect(c.chan[0], slot);
    }
  }

  lemma DeliveredLinked(s: System, fd: Fd)
    requires Linked(s.conns, s.backups) && Enabled(s, Deliver(fd))
    ensures var u := Delivered(s, fd);
            && Linked(u.conns, u.backups) && u.conns.Keys == s.conns.Keys
            && forall gd | gd in s.conns :: u.conns[gd].chan == s.conns[gd].chan || |u.conns[gd].chan| < |s.conns[gd].chan|
  {
    hide Apply, OnWire;
  }

  lemma DeliverRecalls(h: Memories, s: System, fd: Fd)
    requires Recalls(s, h) && Inv(s) && Enabled(s, Deliver(fd))
    ensures Recalls(Delivered(s, fd), Remembered(h, s, Delivered(s, fd)))
  {
    var u := Delivered(s, fd);
    DeliveredLinked(s, fd);
    hide Inv, InView, At, AllTold, Linked;
    forall gd, t, ip | gd in u.conns
      ensures InView(u.conns, u.backups, gd, RecentSlot(t, ip)) == InView(s.conns, s.backups, gd, RecentSlot(t, ip))
    {
      DeliveredView(s, fd, gd, RecentSlot(t, ip));
    }
    SameRecalls(h, s, u);
  }

  lemma CountedInDrain(s: System)
    requires Inv(s) && s.draining
    ensures s.count >= 0
  {
  }

  lemma ReplicatedRecalls(h: Memories, s: System, u: System, p: Packet)
    requires Recalls(s, h) && Inv(s) && s.draining
    requires u.master == Replicated(s, p).master && u.conns == Replicated(s, p).conns
    requires u.backups == s.backups && u.draining && u.count == s.count
    ensures Recalls(u, Remembered(h, s, u))
  {
    ApplyIsApplied(s.master, p);
    CountedInDrain(s);
    hide Inv, Applied, Recalls;
    if s.count > 0 {
      BroadcastRecalls(h, s, u, p);
    } else {
      SilentRecalls(h, s, u);
    }
  }

  lemma SingleAtMaster(s: System)
    requires Inv(s)
    ensures OneService(s.master.http)
  {
  }

  lemma PoppedParts(s: System)
    requires s.httpQueue != []
    ensures var u := HttpPopped(s);
            && u.backups == s.backups && u.draining == s.draining && u.count == s.count
            && match s.httpQueue[0]
               case Session(a) => u.master == Replicated(s, Http(a)).master && u.conns == Replicated(s, Http(a)).conns
               case FarmUp(farm) => u == Cleared(s.(httpQueue := u.httpQueue), farm)
               case FarmDown(farm) => u == Cleared(s.(httpQueue := u.httpQueue), farm)
  {
    hide Apply, Broadcast, ClearFarm;
  }

  lemma PopHttpRecalls(h: Memories, s: System)
    requires Recalls(s, h) && Inv(s) && s.draining && s.httpQueue != []
    ensures Recalls(HttpPopped(s), Remembered(h, s, HttpPopped(s)))
  {
    var u := HttpPopped(s);
    SingleAtMaster(s);
    PoppedParts(s);
    hide *;
    match s.httpQueue[0]
    case Session(a) => ReplicatedRecalls(h, s, u, Http(a));
    case FarmUp(farm) => ClearedRecalls(h, s, u, farm);
    case FarmDown(farm) => ClearedRecalls(h, s, u, farm);
  }

  lemma ClearedRecalls(h: Memories, s: System, u: System, farm: string)
    requires Recalls(s, h) && OneService(s.master.http)
    requires u == Cleared(s.(httpQueue := u.httpQueue), farm)
    ensures Recalls(u, Remembered(h, s, u))
  {
    ClearIsApplied(s.master, farm);
    hide Recalls, Applied, ClearFarm;
    BroadcastRecalls(h, s, u, Http(ClearOf(farm)));
  }

  lemma HandleRecalls(h: Memories, s: System, snapshot: seq<Packet>)
    requires Recalls(s, h) && Inv(s) && !s.draining && s.requests != []
    requires s.requests[0].SyncRequest? && s.requests[0].fd in s.conns ==> IsSnapshot(s.master, snapshot)
    ensures Recalls(Handled(s, snapshot), Remembered(h, s, Handled(s, snapshot)))
  {
    assert MasterSound(s.master);
    hide Inv, AllTold, Remembered, MasterSound, IsSnapshot, InView, At;
    var u := Handled(s, snapshot);
    if s.requests[0].SyncRequest? && s.requests[0].fd in s.conns {
      SnapshotRecalls(h, s, u, s.requests[0].fd, snapshot);
    } else {
      SameRecalls(h, s, u);
    }
  }

  lemma BeginDrainRecalls(h: Memories, s: System)
    requires Recalls(s, h) && Inv(s) && Enabled(s, BeginDrain)
    ensures Recalls(Do(s, BeginDrain), Remembered(h, s, Do(s, BeginDrain)))
  {
    if s.count == 0 {
      assert s.conns.Keys == {};
    }
    assert Untold(true, s.count, h);
    hide Inv, AllTold, Remembered;
    SameRecalls(h, s, Do(s, BeginDrain));
  }

  lemma StepRecalls(h: Memories, s: System, step: Step)
    requires Recalls(s, h) && Inv(s) && Enabled(s, step)
    ensures Recalls(Do(s, step), Remembered(h, s, Do(s, step)))
  {
    hide Inv, AllTold, Remembered, HttpPopped, Handled, Delivered, Connected, Dropped, Lost, IsSnapshot;
    match step
    case Accept(fd, node) => AcceptRecalls(h, s, fd, node);
    case Drop(fd) => DropRecalls(h, s, fd);
    case Lose(fd, nobody) => LoseRecalls(h, s, fd, nobody);
    case Handle(snapshot) => HandleRecalls(h, s, snapshot);
    case BeginDrain => BeginDrainRecalls(h, s);
    case PopHttp => PopHttpRecalls(h, s);
    case PopRecent => ReplicatedRecalls(h, s, Do(s, step), Recent(s.recentQueue[0]));
    case Deliver(fd) => DeliverRecalls(h, s, fd);
    case _ => SameRecalls(h, s, Do(s, step));
  }

  // ---------------------------------------------------------------------------
  // Runs

  lemma {:induction false} RunRecalls(h: Memories, s: System, steps: seq<Step>)
    requires Recalls(s, h) && Inv(s) && Run(s, steps).Some?
    ensures Recalls(Run(s, steps).value, History(s, h, steps))
    decreases steps
  {
    if steps != [] {
      hide Inv, Recalls, Do, Enabled, Remembered;
      StepKeeps(s, steps[0]);
      StepRecalls(h, s, steps[0]);
      RunRecalls(Remembered(h, s, Do(s, steps[0])), Do(s, steps[0]), steps[1..]);
    }
  }

  /** What a backup will hold about an address, over every run: where anything has been sent about it since the
      connection was accepted, what the master holds; everywhere else, what the node had kept. So once the snapshot
      has been sent the node differs from the master exactly where the master has nothing, the node had kept an
      entry, and nothing sent since was about that address. */
  lemma StaleExactly(steps: seq<Step>, s: System, fd: Fd, t: string, ip: string)
    requires Run(INITIAL, steps) == Some(s) && fd in s.conns
    ensures fd in History(INITIAL, map[], steps) && s.conns[fd].node in s.backups
    ensures var (m, slot) := (History(INITIAL, map[], steps)[fd], RecentSlot(t, ip));
            var (b, theirs) := (At(Settling(s, fd), slot), At(s.master, slot));
            && b == (if Touched(m.sent, slot) then theirs else At(m.kept, slot))
            && (s.conns[fd].synced ==> (b != theirs <==> theirs == None && At(m.kept, slot).Some? && !Touched(m.sent, slot)))
  {
    RecentReplication(steps, s, fd, t, ip);
    InitialInv();
    RunRecalls(map[], INITIAL, steps);
    var _ := Reachable(steps);
    SettlingView(s, fd, RecentSlot(t, ip));
    hide Inv, InView, At, Touched, Run;
  }

  /** What is on record as kept: the recent entries that the node held when it was accepted, and no sessions. */
  lemma KeptIsHeld(h: Memories, s: System, fd: Fd, node: Node)
    requires Enabled(s, Accept(fd, node))
    ensures var h' := Remembered(h, s, Do(s, Accept(fd, node)));
            && fd in h' && h'[fd].sent == []
            && h'[fd].kept == Data(if node in s.backups then s.backups[node].data.recent else map[], map[])
  {
  }
}
