// The replication protocol: the master's run thread, its listeners, and backups that come and go,
// one FIFO channel for each connection.
module Protocol {
  import opened Seqs
  import opened Text
  import opened XtRecentProc
  import opened Messages
  import opened Wire
  import opened Replica
  import opened XtRecentSync

  type Fd = nat
  type Node = nat

  /** What the receive thread queues for the run thread. */
  datatype Request = Connect(fd: Fd) | SyncRequest(fd: Fd) | Disconnect(fd: Fd)

  /** What the http listener queues: an action, or a farm's service coming up or going down. */
  datatype HttpEvent = Session(action: HttpAction) | FarmUp(farm: string) | FarmDown(farm: string)

  /** synced: the snapshot this backup asked for has been sent. */
  datatype Conn = Conn(node: Node, chan: seq<Packet>, synced: bool)

  /** first: this is the node's first connection, so that it started without recent data. */
  datatype Backup = Backup(data: Data, first: bool)

  /** settled: the connections that were open when the current drain began; faithful: no poll so far
      missed a change. Both are history variables. */
  datatype System = System(
    master: Data,
    count: int,
    requests: seq<Request>,
    recentQueue: seq<RecentAction>,
    httpQueue: seq<HttpEvent>,
    draining: bool,
    conns: map<Fd, Conn>,
    backups: map<Node, Backup>,
    snapshots: map<string, Rows>,
    settled: set<Fd>,
    faithful: bool)

  const EMPTY := Data(map[], map[])
  const INITIAL := System(EMPTY, 0, [], [], [], false, map[], map[], map[], {}, true)

  // ---------------------------------------------------------------------------
  // What is sent

  /** A packet that the wire carries: sendable, with ids of one byte. */
  predicate Carried(p: Packet) {
    Sendable(p) && (p.Http? ==> p.request.listener < 256 && p.request.service < 256 && p.request.backend < 256)
  }

  lemma WireKeepsEffect(p: Packet, s: Slot)
    requires Carried(p)
    ensures Effect(OnWire(p), s) == Effect(p, s)
  {
  }

  /** The clear request for a farm. */
  function ClearOf(farm: string): HttpAction {
    HttpAction(CLEAR_DATA, farm, 0, 0, 0, "", "", 0)
  }

  /** The packet that a snapshot contains for a slot. */
  function AddOf(s: Slot, v: Value): Packet {
    match (s, v)
    case (RecentSlot(t, _), EntryValue(e)) => Recent(AddUpdEntry(t, e))
    case (HttpSlot(f, l, w, k), SessionValue(x)) => Http(HttpAction(SESS_ADD, f, l, w, x.backendId, k, x.content, x.lastAcc))
    case _ => Control(0)
  }

  /** p is the add of what d holds in the slot. */
  predicate AddsFrom(d: Data, slot: Slot, p: Packet) {
    At(d, slot).Some? && p == AddOf(slot, At(d, slot).value)
  }

  /** handle_recent_sync and handle_http_sync: an add for everything the master holds, in some order. */
  ghost predicate IsSnapshot(d: Data, ps: seq<Packet>) {
    && (forall p | p in ps :: exists slot :: AddsFrom(d, slot, p))
    && (forall slot :: At(d, slot).Some? ==> AddOf(slot, At(d, slot).value) in ps)
  }

  /** send_packet with fd -1 */
  function Broadcast(conns: map<Fd, Conn>, p: Packet): (r: map<Fd, Conn>)
    ensures r.Keys == conns.Keys
  {
    map fd | fd in conns :: conns[fd].(chan := conns[fd].chan + [p])
  }

  function SnapshotOf(snapshots: map<string, Rows>, name: string): Rows {
    if name in snapshots then snapshots[name] else map[]
  }

  // ---------------------------------------------------------------------------
  // Steps

  datatype Step =
    | Poll(name: string, now: Rows, actions: seq<RecentAction>)
    | Arrive(event: HttpEvent)
    | Accept(fd: Fd, node: Node)
    | Ask(fd: Fd)
    | Drop(fd: Fd)
    | Lose(fd: Fd, nobody: Node)
    | Handle(snapshot: seq<Packet>)
    | BeginDrain
    | PopHttp
    | PopRecent
    | EndDrain
    | Deliver(fd: Fd)

  ghost predicate Enabled(s: System, step: Step) {
    match step
    case Poll(name, now, actions) =>
      && WellKeyed(now) && IsDiff(name, SnapshotOf(s.snapshots, name), now, actions)
      && forall i :: 0 <= i < |actions| ==> Carried(Recent(actions[i]))
    case Arrive(Session(a)) => Carried(Http(a))
    case Arrive(FarmUp(farm)) => Carried(Http(ClearOf(farm)))
    case Arrive(FarmDown(farm)) => Carried(Http(ClearOf(farm)))
    case Accept(fd, node) => fd !in s.conns && forall f | f in s.conns :: s.conns[f].node != node
    case Ask(fd) => fd in s.conns
    case Drop(fd) => fd in s.conns
    case Lose(fd, nobody) => fd in s.conns && s.conns[fd].node in s.backups && nobody !in s.backups
    case Handle(snapshot) =>
      && !s.draining && s.requests != []
      && (s.requests[0].SyncRequest? && s.requests[0].fd in s.conns ==> IsSnapshot(s.master, snapshot))
    case BeginDrain => !s.draining && s.requests == []
    case PopHttp => s.draining && s.httpQueue != []
    case PopRecent => s.draining && s.recentQueue != []
    case EndDrain => s.draining
    case Deliver(fd) => fd in s.conns && s.conns[fd].chan != [] && s.conns[fd].node in s.backups
  }

  /** The node as it is when its connection is accepted. */
  function Arrived(backups: map<Node, Backup>, node: Node): Backup {
    if node in backups then Backup(backups[node].data.(http := map[]), false) else Backup(EMPTY, true)
  }

  function Connected(s: System, fd: Fd, node: Node): System {
    s.(requests := s.requests + [Connect(fd)],
       conns := s.conns[fd := Conn(node, [], false)],
       backups := s.backups[node := Arrived(s.backups, node)])
  }

  function Dropped(s: System, fd: Fd): System {
    s.(requests := s.requests + [Disconnect(fd)], conns := s.conns - {fd}, settled := s.settled - {fd})
  }

  /** The node's end of a connection is gone and the master has not noticed: what it sends there reaches nobody that
      counts, as if a stranger with the same data had taken the node's place. The node itself may connect again. */
  function Lost(s: System, fd: Fd, nobody: Node): System
    requires fd in s.conns && s.conns[fd].node in s.backups
  {
    s.(conns := s.conns[fd := s.conns[fd].(node := nobody)], backups := s.backups[nobody := s.backups[s.conns[fd].node]])
  }

  /** The switch on the request's type. */
  function Handled(s: System, snapshot: seq<Packet>): System
    requires s.requests != []
  {
    var t := s.(requests := s.requests[1..]);
    match s.requests[0]
    case Connect(_) => t.(count := s.count + 1)
    case Disconnect(_) => t.(count := s.count - 1)
    case SyncRequest(fd) =>
      if fd in s.conns then t.(conns := s.conns[fd := s.conns[fd].(chan := s.conns[fd].chan + snapshot, synced := true)]) else t
  }

  /** Applied to the master and, if backups are counted, sent to all that are connected. */
  function Replicated(s: System, p: Packet): System {
    s.(master := Apply(s.master, p), conns := if s.count > 0 then Broadcast(s.conns, p) else s.conns)
  }

  /** clear_http_farm_data */
  function ClearFarm(d: HttpData, farm: string): HttpData {
    if farm in d then d[farm := map[]] else d
  }

  /** A farm's service came or went: the clear request is sent whatever the count is. */
  function Cleared(s: System, farm: string): System {
    s.(master := s.master.(http := ClearFarm(s.master.http, farm)), conns := Broadcast(s.conns, Http(ClearOf(farm))))
  }

  function HttpPopped(s: System): System
    requires s.httpQueue != []
  {
    var t := s.(httpQueue := s.httpQueue[1..]);
    match s.httpQueue[0]
    case Session(a) => Replicated(t, Http(a))
    case FarmUp(farm) => Cleared(t, farm)
    case FarmDown(farm) => Cleared(t, farm)
  }

  function Delivered(s: System, fd: Fd): System
    requires fd in s.conns && s.conns[fd].chan != [] && s.conns[fd].node in s.backups
  {
    var c := s.conns[fd];
    s.(conns := s.conns[fd := c.(chan := c.chan[1..])],
       backups := s.backups[c.node := s.backups[c.node].(data := Apply(s.backups[c.node].data, OnWire(c.chan[0])))])
  }

  ghost function Do(s: System, step: Step): System
    requires Enabled(s, step)
  {
    match step
    case Poll(name, now, actions) =>
      s.(snapshots := s.snapshots[name := now], recentQueue := s.recentQueue + actions,
         faithful := s.faithful && Faithful(SnapshotOf(s.snapshots, name), now))
    case Arrive(event) => s.(httpQueue := s.httpQueue + [event])
    case Accept(fd, node) => Connected(s, fd, node)
    case Ask(fd) => s.(requests := s.requests + [SyncRequest(fd)])
    case Drop(fd) => Dropped(s, fd)
    case Lose(fd, nobody) => Lost(s, fd, nobody)
    case Handle(snapshot) => Handled(s, snapshot)
    case BeginDrain => s.(draining := true, settled := s.conns.Keys)
    case PopHttp => HttpPopped(s)
    case PopRecent => Replicated(s.(recentQueue := s.recentQueue[1..]), Recent(s.recentQueue[0]))
    case EndDrain => s.(draining := false)
    case Deliver(fd) => Delivered(s, fd)
  }

  // ---------------------------------------------------------------------------
  // The invariant

  ghost predicate Linked(conns: map<Fd, Conn>, backups: map<Node, Backup>) {
    && (forall fd | fd in conns :: conns[fd].node in backups)
    && (forall fd, gd | fd in conns && gd in conns && conns[fd].node == conns[gd].node :: fd == gd)
  }

  /** The value of a slot at a backup once its channel has drained. */
  function InView(conns: map<Fd, Conn>, backups: map<Node, Backup>, fd: Fd, slot: Slot): Option<Value>
    requires fd in conns && conns[fd].node in backups
  {
    Final(At(backups[conns[fd].node].data, slot), conns[fd].chan, slot)
  }

  /** Nothing of an earlier connection can show in the slot: sessions are cleared on reconnect. */
  predicate Clean(conns: map<Fd, Conn>, backups: map<Node, Backup>, fd: Fd, slot: Slot)
    requires fd in conns && conns[fd].node in backups
  {
    slot.HttpSlot? || backups[conns[fd].node].first
  }

  /** v is a backup's value once its channel has drained, m the master's. */
  predicate Agree(v: Option<Value>, m: Option<Value>, synced: bool, clean: bool) {
    && (synced && (clean || m.Some?) ==> v == m)
    && (!synced && clean && v.Some? ==> v == m)
  }

  ghost predicate Views(master: Data, conns: map<Fd, Conn>, backups: map<Node, Backup>)
    requires Linked(conns, backups)
  {
    forall fd, slot | fd in conns ::
      Agree(InView(conns, backups, fd, slot), At(master, slot), conns[fd].synced, Clean(conns, backups, fd, slot))
  }

  function Connects(rs: seq<Request>): int {
    if rs == [] then 0 else (if rs[0].Connect? then 1 else 0) + Connects(rs[1..])
  }

  function Disconnects(rs: seq<Request>): int {
    if rs == [] then 0 else (if rs[0].Disconnect? then 1 else 0) + Disconnects(rs[1..])
  }

  /** backup_servers_fd lags behind the connections by the requests still queued. */
  predicate Counted(count: int, conns: map<Fd, Conn>, requests: seq<Request>) {
    count == |conns.Keys| - Connects(requests) + Disconnects(requests)
  }

  /** During a drain the count covers the connections it began with, and they include the synced ones. */
  ghost predicate Settled(draining: bool, count: int, conns: map<Fd, Conn>, settled: set<Fd>) {
    && settled <= conns.Keys
    && (draining ==> |settled| <= count && forall fd | fd in conns && conns[fd].synced :: fd in settled)
  }

  /** While nobody is counted, nothing has been sent to those who have just connected. */
  ghost predicate Unsent(draining: bool, count: int, conns: map<Fd, Conn>, backups: map<Node, Backup>)
    requires Linked(conns, backups)
  {
    draining && count == 0 ==>
      forall fd, slot | fd in conns && Clean(conns, backups, fd, slot) :: InView(conns, backups, fd, slot) == None
  }

  ghost predicate SingleServices(backups: map<Node, Backup>) {
    forall n | n in backups :: OneService(backups[n].data.http)
  }

  /** A value the master holds can be sent, and its add puts it back where it is. */
  predicate Sound(s: Slot, v: Value) {
    Carried(AddOf(s, v)) && Effect(AddOf(s, v), s) == Becomes(Some(v))
  }

  ghost predicate MasterSound(master: Data) {
    && OneService(master.http)
    && forall slot :: At(master, slot).Some? ==> Sound(slot, At(master, slot).value)
  }

  predicate EventCarried(e: HttpEvent) {
    match e
    case Session(a) => Carried(Http(a))
    case FarmUp(farm) => Carried(Http(ClearOf(farm)))
    case FarmDown(farm) => Carried(Http(ClearOf(farm)))
  }

  predicate HttpCarried(queue: seq<HttpEvent>) {
    forall i :: 0 <= i < |queue| ==> EventCarried(queue[i])
  }

  predicate RecentCarried(queue: seq<RecentAction>) {
    forall i :: 0 <= i < |queue| ==> Carried(Recent(queue[i]))
  }

  ghost predicate ChansCarried(conns: map<Fd, Conn>) {
    forall fd, i | fd in conns && 0 <= i < |conns[fd].chan| :: Carried(conns[fd].chan[i])
  }

  /** What the master will hold once it has popped every queued action. */
  function Coming(master: Data, queue: seq<RecentAction>, t: string, ip: string): Option<Value> {
    Final(At(master, RecentSlot(t, ip)), AsPackets(queue), RecentSlot(t, ip))
  }

  /** The queue leads to the latest snapshots: always to their addresses and indices, and to the very
      entries as long as every poll was faithful. */
  predicate Leads(v: Option<Value>, latest: Option<Value>, faithful: bool) {
    && (v.Some? <==> latest.Some?)
    && (v.Some? ==> v.value.EntryValue? && latest.value.EntryValue? && v.value.entry.index == latest.value.entry.index)
    && (faithful ==> v == latest)
  }

  ghost predicate Tracks(master: Data, queue: seq<RecentAction>, snapshots: map<string, Rows>, faithful: bool) {
    forall t, ip :: Leads(Coming(master, queue, t, ip), RowAt(SnapshotOf(snapshots, t), ip), faithful)
  }

  ghost predicate Inv(s: System) {
    && Linked(s.conns, s.backups) && Views(s.master, s.conns, s.backups)
    && Counted(s.count, s.conns, s.requests)
    && Settled(s.draining, s.count, s.conns, s.settled)
    && Unsent(s.draining, s.count, s.conns, s.backups)
    && MasterSound(s.master) && SingleServices(s.backups)
    && HttpCarried(s.httpQueue) && RecentCarried(s.recentQueue) && ChansCarried(s.conns)
    && Tracks(s.master, s.recentQueue, s.snapshots, s.faithful)
  }

  lemma InitialInv()
    ensures Inv(INITIAL)
  {
    assert AsPackets([]) == [];
  }

  // ---------------------------------------------------------------------------
  // Changes of the master

  lemma ClearEffect(d: Data, farm: string, slot: Slot)
    requires OneService(d.http)
    ensures var d' := d.(http := ClearFarm(d.http, farm));
            OneService(d'.http) && At(d', slot) == Changed(Effect(Http(ClearOf(farm)), slot), At(d, slot))
  {
  }

  /** A value that a carried packet stores is sound. */
  lemma StoredIsSound(p: Packet, slot: Slot)
    requires Carried(p)
    ensures Effect(p, slot).Becomes? && Effect(p, slot).value.Some? ==> Sound(slot, Effect(p, slot).value.value)
  {
  }

  /** d' is d with the packet p applied, slot by slot. */
  ghost predicate Applied(d: Data, p: Packet, d': Data) {
    OneService(d'.http) && forall slot :: At(d', slot) == Changed(Effect(p, slot), At(d, slot))
  }

  lemma ApplyIsApplied(d: Data, p: Packet)
    requires OneService(d.http)
    ensures Applied(d, p, Apply(d, p))
  {
    forall slot ensures At(Apply(d, p), slot) == Changed(Effect(p, slot), At(d, slot)) {
      ApplyEffect(d, p, slot);
    }
    ApplyEffect(d, p, RecentSlot("", ""));
  }

  lemma ClearIsApplied(d: Data, farm: string)
    requires OneService(d.http)
    ensures Applied(d, Http(ClearOf(farm)), d.(http := ClearFarm(d.http, farm)))
  {
    forall slot ensures At(d.(http := ClearFarm(d.http, farm)), slot) == Changed(Effect(Http(ClearOf(farm)), slot), At(d, slot)) {
      ClearEffect(d, farm, slot);
    }
    ClearEffect(d, farm, RecentSlot("", ""));
  }

  lemma BroadcastView(conns: map<Fd, Conn>, backups: map<Node, Backup>, p: Packet, fd: Fd, slot: Slot)
    requires fd in conns && conns[fd].node in backups
    ensures InView(Broadcast(conns, p), backups, fd, slot) == Changed(Effect(p, slot), InView(conns, backups, fd, slot))
  {
    var c := conns[fd];
    FinalConcat(At(backups[c.node].data, slot), c.chan, [p], slot);
    FinalOne(InView(conns, backups, fd, slot), p, slot);
  }

  lemma AgreeOn(v: Option<Value>, m: Option<Value>, synced: bool, clean: bool, c: Change)
    requires Agree(v, m, synced, clean)
    ensures Agree(Changed(c, v), Changed(c, m), synced, clean)
  {
  }

  /** The packet is applied to the master and sent to every connection. */
  lemma BroadcastViews(master: Data, conns: map<Fd, Conn>, backups: map<Node, Backup>, p: Packet, d': Data)
    requires Linked(conns, backups) && Views(master, conns, backups) && Applied(master, p, d')
    ensures Linked(Broadcast(conns, p), backups) && Views(d', Broadcast(conns, p), backups)
  {
    hide Effect, At, Agree, Final;
    var conns' := Broadcast(conns, p);
    forall fd, slot | fd in conns
      ensures Agree(InView(conns', backups, fd, slot), At(d', slot), conns'[fd].synced, Clean(conns', backups, fd, slot))
    {
      BroadcastView(conns, backups, p, fd, slot);
      AgreeOn(InView(conns, backups, fd, slot), At(master, slot), conns[fd].synced, Clean(conns, backups, fd, slot), Effect(p, slot));
    }
  }

  lemma BroadcastUnsent(count: int, conns: map<Fd, Conn>, backups: map<Node, Backup>, p: Packet)
    requires Linked(conns, backups) && Unsent(true, count, conns, backups)
    requires count == 0 ==> forall slot :: Effect(p, slot) in {Keep, Becomes(None)}
    ensures Linked(Broadcast(conns, p), backups) && Unsent(true, count, Broadcast(conns, p), backups)
  {
    hide Effect, At, Final;
    forall fd, slot | fd in conns
      ensures InView(Broadcast(conns, p), backups, fd, slot) == Changed(Effect(p, slot), InView(conns, backups, fd, slot))
    {
      BroadcastView(conns, backups, p, fd, slot);
    }
  }

  /** Nobody is counted: the master changes alone. */
  lemma SilentViews(master: Data, conns: map<Fd, Conn>, backups: map<Node, Backup>, settled: set<Fd>, d': Data)
    requires Linked(conns, backups) && Settled(true, 0, conns, settled) && Unsent(true, 0, conns, backups)
    ensures Views(d', conns, backups)
  {
    assert settled == {};
  }

  lemma StillSound(master: Data, p: Packet, d': Data)
    requires MasterSound(master) && Carried(p) && Applied(master, p, d')
    ensures MasterSound(d')
  {
    hide Carried, Effect, At, OneService, Sound, AddOf;
    forall slot | At(d', slot).Some? ensures Sound(slot, At(d', slot).value) {
      StoredIsSound(p, slot);
    }
  }

  lemma HttpLeavesRecent(d: Data, a: HttpAction, d': Data, t: string, ip: string)
    requires Applied(d, Http(a), d')
    ensures At(d', RecentSlot(t, ip)) == At(d, RecentSlot(t, ip))
  {
  }

  lemma HttpKeepsTracks(master: Data, a: HttpAction, d': Data, queue: seq<RecentAction>, snapshots: map<string, Rows>, faithful: bool)
    requires Tracks(master, queue, snapshots, faithful) && Applied(master, Http(a), d')
    ensures Tracks(d', queue, snapshots, faithful)
  {
    hide Applied, At, Final, Leads;
    forall t, ip ensures Coming(d', queue, t, ip) == Coming(master, queue, t, ip) {
      HttpLeavesRecent(master, a, d', t, ip);
    }
  }

  /** Popping an action and applying it is what the queue was going to do anyway. */
  lemma PopKeepsTracks(master: Data, d': Data, queue: seq<RecentAction>, snapshots: map<string, Rows>, faithful: bool)
    requires Tracks(master, queue, snapshots, faithful) && queue != [] && Applied(master, Recent(queue[0]), d')
    ensures Tracks(d', queue[1..], snapshots, faithful)
  {
    hide At, Leads, Effect;
    assert AsPackets(queue)[1..] == AsPackets(queue[1..]);
    forall t, ip ensures Coming(d', queue[1..], t, ip) == Coming(master, queue, t, ip) {
    }
  }

  lemma PollKeepsTracks(master: Data, queue: seq<RecentAction>, snapshots: map<string, Rows>, faithful: bool,
                        name: string, now: Rows, actions: seq<RecentAction>)
    requires Tracks(master, queue, snapshots, faithful) && IsDiff(name, SnapshotOf(snapshots, name), now, actions)
    ensures Tracks(master, queue + actions, snapshots[name := now], faithful && Faithful(SnapshotOf(snapshots, name), now))
  {
    var was := SnapshotOf(snapshots, name);
    var snapshots' := snapshots[name := now];
    hide At, Effect, IsDiff;
    assert AsPackets(queue + actions) == AsPackets(queue) + AsPackets(actions);
    forall t, ip
      ensures Leads(Coming(master, queue + actions, t, ip), RowAt(SnapshotOf(snapshots', t), ip), faithful && Faithful(was, now))
    {
      var slot := RecentSlot(t, ip);
      FinalConcat(At(master, slot), AsPackets(queue), AsPackets(actions), slot);
      DiffReplay(name, was, now, actions, Coming(master, queue, t, ip), slot);
      assert Leads(Coming(master, queue, t, ip), RowAt(SnapshotOf(snapshots, t), ip), faithful);
    }
  }

  lemma BroadcastCarried(conns: map<Fd, Conn>, p: Packet)
    requires ChansCarried(conns) && Carried(p)
    ensures ChansCarried(Broadcast(conns, p))
  {
    hide Carried;
  }

  /** Broadcasting changes channels only. */
  lemma BroadcastSettled(draining: bool, count: int, conns: map<Fd, Conn>, settled: set<Fd>, requests: seq<Request>, p: Packet)
    requires Settled(draining, count, conns, settled) && Counted(count, conns, requests)
    ensures Settled(draining, count, Broadcast(conns, p), settled) && Counted(count, Broadcast(conns, p), requests)
  {
  }

  /** queue is what is left of the actions of the listener. */
  lemma ReplicatedKeeps(s: System, p: Packet, queue: seq<RecentAction>)
    requires Inv(s) && s.draining && Carried(p) && RecentCarried(queue)
    ensures var s' := Replicated(s, p);
            && Applied(s.master, p, s'.master)
            && (Tracks(s'.master, queue, s.snapshots, s.faithful) ==> Inv(s'.(recentQueue := queue)))
  {
    var d' := Apply(s.master, p);
    ApplyIsApplied(s.master, p);
    StillSound(s.master, p, d');
    if s.count > 0 {
      BroadcastViews(s.master, s.conns, s.backups, p, d');
      BroadcastUnsent(s.count, s.conns, s.backups, p);
      BroadcastCarried(s.conns, p);
      BroadcastSettled(s.draining, s.count, s.conns, s.settled, s.requests, p);
    } else {
      assert s.count == 0;
      SilentViews(s.master, s.conns, s.backups, s.settled, d');
    }
  }

  lemma PopRecentKeeps(s: System)
    requires Inv(s) && s.draining && s.recentQueue != []
    ensures Inv(Replicated(s.(recentQueue := s.recentQueue[1..]), Recent(s.recentQueue[0])))
  {
    hide Linked, Views, Counted, Settled, Unsent, MasterSound, SingleServices, ChansCarried, Tracks, Carried, Applied;
    var (a, rest) := (s.recentQueue[0], s.recentQueue[1..]);
    assert Carried(Recent(a));
    ReplicatedKeeps(s, Recent(a), rest);
    PopKeepsTracks(s.master, Apply(s.master, Recent(a)), s.recentQueue, s.snapshots, s.faithful);
    assert Replicated(s.(recentQueue := rest), Recent(a)) == Replicated(s, Recent(a)).(recentQueue := rest);
  }

  lemma ClearedKeeps(s: System, farm: string)
    requires Inv(s) && s.draining && Carried(Http(ClearOf(farm)))
    ensures Inv(Cleared(s, farm))
  {
    var (p, d') := (Http(ClearOf(farm)), s.master.(http := ClearFarm(s.master.http, farm)));
    ClearIsApplied(s.master, farm);
    StillSound(s.master, p, d');
    BroadcastViews(s.master, s.conns, s.backups, p, d');
    BroadcastUnsent(s.count, s.conns, s.backups, p);
    BroadcastCarried(s.conns, p);
    BroadcastSettled(s.draining, s.count, s.conns, s.settled, s.requests, p);
    HttpKeepsTracks(s.master, ClearOf(farm), d', s.recentQueue, s.snapshots, s.faithful);
  }

  lemma PopHttpKeeps(s: System)
    requires Inv(s) && s.draining && s.httpQueue != []
    ensures Inv(HttpPopped(s))
  {
    var t := s.(httpQueue := s.httpQueue[1..]);
    assert EventCarried(s.httpQueue[0]);
    hide Linked, Views, Counted, Settled, Unsent, MasterSound, SingleServices, ChansCarried, Tracks, Carried, Applied, EventCarried;
    assert Inv(t);
    match s.httpQueue[0]
    case Session(a) => PopSessionKeeps(t, a);
    case FarmUp(farm) => ClearedKeeps(t, farm);
    case FarmDown(farm) => ClearedKeeps(t, farm);
  }

  lemma PopSessionKeeps(s: System, a: HttpAction)
    requires Inv(s) && s.draining && EventCarried(HttpEvent.Session(a))
    ensures Inv(Replicated(s, Http(a)))
  {
    ReplicatedKeeps(s, Http(a), s.recentQueue);
    assert Replicated(s, Http(a)).(recentQueue := s.recentQueue) == Replicated(s, Http(a));
    HttpKeepsTracks(s.master, a, Apply(s.master, Http(a)), s.recentQueue, s.snapshots, s.faithful);
  }

  // ---------------------------------------------------------------------------
  // Requests, connections and deliveries

  lemma {:induction false} RequestsConcat(rs: seq<Request>, r: Request)
    ensures Connects(rs + [r]) == Connects(rs) + (if r.Connect? then 1 else 0)
    ensures Disconnects(rs + [r]) == Disconnects(rs) + (if r.Disconnect? then 1 else 0)
  {
    if rs == [] {
      assert [r][1..] == [];
    } else {
      assert (rs + [r])[1..] == rs[1..] + [r];
      RequestsConcat(rs[1..], r);
    }
  }

  lemma AskKeeps(s: System, fd: Fd)
    requires Inv(s)
    ensures Inv(s.(requests := s.requests + [SyncRequest(fd)]))
  {
    hide Linked, Views, Settled, Unsent, MasterSound, SingleServices, ChansCarried, Tracks;
    RequestsConcat(s.requests, SyncRequest(fd));
  }

  lemma BeginDrainKeeps(s: System)
    requires Inv(s) && Enabled(s, BeginDrain)
    ensures Inv(s.(draining := true, settled := s.conns.Keys))
  {
    assert Settled(true, s.count, s.conns, s.conns.Keys);
    if s.count == 0 {
      assert s.conns.Keys == {};
    }
    assert Unsent(true, s.count, s.conns, s.backups);
    hide Linked, Views, Counted, Settled, Unsent, MasterSound, SingleServices, ChansCarried, Tracks;
  }

  lemma EndDrainKeeps(s: System)
    requires Inv(s)
    ensures Inv(s.(draining := false))
  {
    hide Linked, Views, Counted, MasterSound, SingleServices, ChansCarried, Tracks;
  }

  lemma ArriveKeeps(s: System, event: HttpEvent)
    requires Inv(s) && EventCarried(event)
    ensures Inv(s.(httpQueue := s.httpQueue + [event]))
  {
    hide Linked, Views, Counted, Settled, Unsent, MasterSound, SingleServices, ChansCarried, Tracks;
  }

  lemma PollKeeps(s: System, name: string, now: Rows, actions: seq<RecentAction>)
    requires Inv(s) && Enabled(s, Poll(name, now, actions))
    ensures Inv(Do(s, Poll(name, now, actions)))
  {
    hide Linked, Views, Counted, Settled, Unsent, MasterSound, SingleServices, ChansCarried, Tracks, Carried, IsDiff;
    PollKeepsTracks(s.master, s.recentQueue, s.snapshots, s.faithful, name, now, actions);
  }

  lemma DropKeeps(s: System, fd: Fd)
    requires Inv(s) && fd in s.conns
    ensures Inv(Dropped(s, fd))
  {
    hide Linked, Views, Unsent, MasterSound, SingleServices, ChansCarried, Tracks;
    var conns := s.conns - {fd};
    RequestsConcat(s.requests, Disconnect(fd));
    assert conns.Keys == s.conns.Keys - {fd};
    DropCarried(s.conns, fd);
    DropViews(s.master, s.conns, s.backups, s.draining, s.count, fd);
  }

  lemma DropCarried(conns: map<Fd, Conn>, fd: Fd)
    requires ChansCarried(conns)
    ensures ChansCarried(conns - {fd})
  {
    hide Carried;
  }

  lemma DropViews(master: Data, conns: map<Fd, Conn>, backups: map<Node, Backup>, draining: bool, count: int, fd: Fd)
    requires Linked(conns, backups) && Views(master, conns, backups) && Unsent(draining, count, conns, backups)
    ensures Linked(conns - {fd}, backups) && Views(master, conns - {fd}, backups) && Unsent(draining, count, conns - {fd}, backups)
  {
    hide At, Final, Agree;
    forall gd, slot | gd in conns && gd != fd
      ensures InView(conns - {fd}, backups, gd, slot) == InView(conns, backups, gd, slot)
      ensures Clean(conns - {fd}, backups, gd, slot) == Clean(conns, backups, gd, slot)
    {
    }
  }

  lemma AcceptViews(master: Data, conns: map<Fd, Conn>, backups: map<Node, Backup>, draining: bool, count: int, fd: Fd, node: Node)
    requires Linked(conns, backups) && Views(master, conns, backups) && Unsent(draining, count, conns, backups)
    requires fd !in conns && forall gd | gd in conns :: conns[gd].node != node
    ensures var (conns', backups') := (conns[fd := Conn(node, [], false)], backups[node := Arrived(backups, node)]);
            Linked(conns', backups') && Views(master, conns', backups') && Unsent(draining, count, conns', backups')
  {
    hide Agree, Final;
    var (conns', backups') := (conns[fd := Conn(node, [], false)], backups[node := Arrived(backups, node)]);
    forall gd, slot | gd in conns'
      ensures gd != fd ==> InView(conns', backups', gd, slot) == InView(conns, backups, gd, slot)
                           && Clean(conns', backups', gd, slot) == Clean(conns, backups, gd, slot)
      ensures gd == fd && Clean(conns', backups', fd, slot) ==> InView(conns', backups', fd, slot) == None
    {
      EmptyView(At(backups'[conns'[gd].node].data, slot), slot);
    }
    AgreeNothing();
  }

  /** A connection that is handed to a stranger shows what it showed before. */
  lemma LostView(s: System, fd: Fd, nobody: Node, gd: Fd, slot: Slot)
    requires Linked(s.conns, s.backups) && Enabled(s, Lose(fd, nobody)) && gd in s.conns
    ensures var u := Lost(s, fd, nobody);
            && Linked(u.conns, u.backups) && u.conns.Keys == s.conns.Keys
            && u.conns[gd].chan == s.conns[gd].chan && u.conns[gd].synced == s.conns[gd].synced
            && InView(u.conns, u.backups, gd, slot) == InView(s.conns, s.backups, gd, slot)
            && Clean(u.conns, u.backups, gd, slot) == Clean(s.conns, s.backups, gd, slot)
  {
    hide At, Final;
  }

  lemma LoseKeeps(s: System, fd: Fd, nobody: Node)
    requires Inv(s) && Enabled(s, Lose(fd, nobody))
    ensures Inv(Lost(s, fd, nobody))
  {
    var u := Lost(s, fd, nobody);
    LostView(s, fd, nobody, fd, RecentSlot("", ""));
    LostViews(s, fd, nobody);
    LostCounts(s, fd, nobody);
    hide Linked, Views, Counted, Settled, Unsent, MasterSound, SingleServices, ChansCarried, Tracks, Carried;
  }

  lemma LostViews(s: System, fd: Fd, nobody: Node)
    requires Linked(s.conns, s.backups) && Views(s.master, s.conns, s.backups) && Unsent(s.draining, s.count, s.conns, s.backups)
    requires Enabled(s, Lose(fd, nobody))
    ensures var u := Lost(s, fd, nobody);
            Linked(u.conns, u.backups) && Views(s.master, u.conns, u.backups) && Unsent(s.draining, s.count, u.conns, u.backups)
  {
    hide At, Final, Agree, InView, Clean;
    LostView(s, fd, nobody, fd, RecentSlot("", ""));
    forall gd, slot | gd in s.conns
      ensures var u := Lost(s, fd, nobody);
              && InView(u.conns, u.backups, gd, slot) == InView(s.conns, s.backups, gd, slot)
              && Clean(u.conns, u.backups, gd, slot) == Clean(s.conns, s.backups, gd, slot)
              && u.conns[gd].synced == s.conns[gd].synced
    {
      LostView(s, fd, nobody, gd, slot);
    }
  }

  lemma LostCounts(s: System, fd: Fd, nobody: Node)
    requires Settled(s.draining, s.count, s.conns, s.settled) && Counted(s.count, s.conns, s.requests) && ChansCarried(s.conns)
    requires SingleServices(s.backups) && Enabled(s, Lose(fd, nobody))
    ensures var u := Lost(s, fd, nobody);
            && Settled(s.draining, s.count, u.conns, s.settled) && Counted(s.count, u.conns, s.requests)
            && ChansCarried(u.conns) && SingleServices(u.backups)
  {
    assert Lost(s, fd, nobody).conns.Keys == s.conns.Keys;
    hide Carried, OneService;
  }

  lemma EmptyView(v: Option<Value>, slot: Slot)
    ensures Final(v, [], slot) == v
  {
  }

  lemma AgreeNothing()
    ensures forall v: Option<Value>, m: Option<Value>, clean: bool :: (clean ==> v == None) ==> Agree(v, m, false, clean)
  {
  }

  lemma AcceptCounts(draining: bool, count: int, conns: map<Fd, Conn>, settled: set<Fd>, requests: seq<Request>, fd: Fd, node: Node)
    requires Settled(draining, count, conns, settled) && Counted(count, conns, requests) && ChansCarried(conns) && fd !in conns
    ensures var conns' := conns[fd := Conn(node, [], false)];
            Settled(draining, count, conns', settled) && Counted(count, conns', requests + [Connect(fd)]) && ChansCarried(conns')
  {
    RequestsConcat(requests, Connect(fd));
    assert conns[fd := Conn(node, [], false)].Keys == conns.Keys + {fd};
    hide Carried;
  }

  lemma ArrivedSingle(backups: map<Node, Backup>, node: Node)
    requires SingleServices(backups)
    ensures SingleServices(backups[node := Arrived(backups, node)])
  {
  }

  lemma AcceptKeeps(s: System, fd: Fd, node: Node)
    requires Inv(s) && Enabled(s, Accept(fd, node))
    ensures Inv(Connected(s, fd, node))
  {
    hide Linked, Views, Counted, Settled, Unsent, MasterSound, SingleServices, ChansCarried, Tracks, Carried, Arrived;
    AcceptViews(s.master, s.conns, s.backups, s.draining, s.count, fd, node);
    AcceptCounts(s.draining, s.count, s.conns, s.settled, s.requests, fd, node);
    ArrivedSingle(s.backups, node);
  }

  // ---------------------------------------------------------------------------
  // Snapshots

  lemma SnapshotSource(d: Data, ps: seq<Packet>, i: nat) returns (from: Slot)
    requires IsSnapshot(d, ps) && i < |ps|
    ensures At(d, from).Some? && ps[i] == AddOf(from, At(d, from).value)
  {
    assert ps[i] in ps;
    from :| AddsFrom(d, from, ps[i]);
  }

  /** The adds of a snapshot agree, slot by slot, with what the master holds. */
  lemma SnapshotEffects(d: Data, ps: seq<Packet>, slot: Slot)
    requires MasterSound(d) && IsSnapshot(d, ps)
    ensures forall i :: 0 <= i < |ps| ==> Effect(ps[i], slot) in {Keep, Becomes(At(d, slot))}
    ensures At(d, slot).Some? ==> Touched(ps, slot)
  {
    forall i | 0 <= i < |ps| ensures Effect(ps[i], slot) in {Keep, Becomes(At(d, slot))} {
      var from := SnapshotSource(d, ps, i);
      AddEffect(d, from, slot);
    }
    if At(d, slot).Some? {
      var p := AddOf(slot, At(d, slot).value);
      assert p in ps && Sound(slot, At(d, slot).value);
      var i :| 0 <= i < |ps| && ps[i] == p;
      assert Effect(ps[i], slot) != Keep;
    }
  }

  lemma AddEffect(d: Data, from: Slot, slot: Slot)
    requires MasterSound(d) && At(d, from).Some?
    ensures Effect(AddOf(from, At(d, from).value), slot) in {Keep, Becomes(At(d, slot))}
  {
    assert Sound(from, At(d, from).value);
    assert OneService(d.http);
    hide Carried, MasterSound;
  }

  /** A snapshot behind whatever was in flight makes the backup agree. */
  lemma SnapshotView(d: Data, ps: seq<Packet>, v: Option<Value>, slot: Slot, synced: bool, clean: bool)
    requires MasterSound(d) && IsSnapshot(d, ps) && Agree(v, At(d, slot), synced, clean)
    ensures Agree(Final(v, ps, slot), At(d, slot), true, clean)
  {
    SnapshotEffects(d, ps, slot);
    FinalUniform(v, ps, slot, At(d, slot));
  }

  lemma SnapshotViews(master: Data, conns: map<Fd, Conn>, backups: map<Node, Backup>, fd: Fd, ps: seq<Packet>)
    requires Linked(conns, backups) && Views(master, conns, backups) && MasterSound(master)
    requires fd in conns && IsSnapshot(master, ps)
    ensures var conns' := conns[fd := conns[fd].(chan := conns[fd].chan + ps, synced := true)];
            Linked(conns', backups) && Views(master, conns', backups)
  {
    hide MasterSound, IsSnapshot, Agree, At, Final;
    var conns' := conns[fd := conns[fd].(chan := conns[fd].chan + ps, synced := true)];
    forall gd, slot | gd in conns'
      ensures Agree(InView(conns', backups, gd, slot), At(master, slot), conns'[gd].synced, Clean(conns', backups, gd, slot))
    {
      if gd == fd {
        FinalConcat(At(backups[conns[fd].node].data, slot), conns[fd].chan, ps, slot);
        SnapshotView(master, ps, InView(conns, backups, fd, slot), slot, conns[fd].synced, Clean(conns, backups, fd, slot));
      } else {
        assert InView(conns', backups, gd, slot) == InView(conns, backups, gd, slot);
      }
    }
  }

  lemma SnapshotCarried(master: Data, conns: map<Fd, Conn>, fd: Fd, ps: seq<Packet>)
    requires MasterSound(master) && ChansCarried(conns) && fd in conns && IsSnapshot(master, ps)
    ensures ChansCarried(conns[fd := conns[fd].(chan := conns[fd].chan + ps, synced := true)])
  {
    hide Carried, OneService;
    forall i | 0 <= i < |ps| ensures Carried(ps[i]) {
      var from := SnapshotSource(master, ps, i);
      assert Sound(from, At(master, from).value);
    }
  }

  lemma CountKeeps(s: System, snapshot: seq<Packet>)
    requires Inv(s) && !s.draining && s.requests != [] && !s.requests[0].SyncRequest?
    ensures Inv(Handled(s, snapshot))
  {
    hide Linked, Views, MasterSound, SingleServices, ChansCarried, Tracks, Carried, IsSnapshot;
  }

  lemma SyncKeeps(s: System, fd: Fd, snapshot: seq<Packet>)
    requires Inv(s) && !s.draining && s.requests != [] && s.requests[0] == SyncRequest(fd)
    requires fd in s.conns ==> IsSnapshot(s.master, snapshot)
    ensures Inv(Handled(s, snapshot))
  {
    hide Linked, Views, MasterSound, SingleServices, ChansCarried, Tracks, Carried, IsSnapshot;
    if fd in s.conns {
      SnapshotViews(s.master, s.conns, s.backups, fd, snapshot);
      SnapshotCarried(s.master, s.conns, fd, snapshot);
      assert s.conns[fd := s.conns[fd].(chan := s.conns[fd].chan + snapshot, synced := true)].Keys == s.conns.Keys;
    }
  }

  // ---------------------------------------------------------------------------
  // Deliveries

  lemma DeliverViews(master: Data, conns: map<Fd, Conn>, backups: map<Node, Backup>, draining: bool, count: int, fd: Fd)
    requires Linked(conns, backups) && Views(master, conns, backups) && Unsent(draining, count, conns, backups)
    requires SingleServices(backups) && ChansCarried(conns) && fd in conns && conns[fd].chan != []
    ensures var (c, b) := (conns[fd], backups[conns[fd].node]);
            var (conns', backups') := (conns[fd := c.(chan := c.chan[1..])], backups[c.node := b.(data := Apply(b.data, OnWire(c.chan[0])))]);
            && Linked(conns', backups') && Views(master, conns', backups') && Unsent(draining, count, conns', backups')
            && SingleServices(backups')
  {
    var (c, b) := (conns[fd], backups[conns[fd].node]);
    var p := c.chan[0];
    var (conns', backups') := (conns[fd := c.(chan := c.chan[1..])], backups[c.node := b.(data := Apply(b.data, OnWire(p)))]);
    assert Carried(p);
    ApplyEffect(b.data, OnWire(p), RecentSlot("", ""));
    hide Agree, Carried, OneService, Apply, OnWire, Effect, At;
    forall gd, slot | gd in conns
      ensures InView(conns', backups', gd, slot) == InView(conns, backups, gd, slot)
      ensures Clean(conns', backups', gd, slot) == Clean(conns, backups, gd, slot)
    {
      if gd == fd {
        ApplyEffect(b.data, OnWire(p), slot);
        WireKeepsEffect(p, slot);
      }
    }
  }

  lemma DeliverCounts(draining: bool, count: int, conns: map<Fd, Conn>, settled: set<Fd>, requests: seq<Request>, fd: Fd)
    requires Settled(draining, count, conns, settled) && Counted(count, conns, requests) && ChansCarried(conns)
    requires fd in conns && conns[fd].chan != []
    ensures var conns' := conns[fd := conns[fd].(chan := conns[fd].chan[1..])];
            Settled(draining, count, conns', settled) && Counted(count, conns', requests) && ChansCarried(conns')
  {
    assert conns[fd := conns[fd].(chan := conns[fd].chan[1..])].Keys == conns.Keys;
    hide Carried;
  }

  lemma DeliverKeeps(s: System, fd: Fd)
    requires Inv(s) && Enabled(s, Deliver(fd))
    ensures Inv(Delivered(s, fd))
  {
    hide Linked, Views, Counted, Settled, Unsent, MasterSound, SingleServices, ChansCarried, Tracks, Carried, Apply, OnWire;
    DeliverViews(s.master, s.conns, s.backups, s.draining, s.count, fd);
    DeliverCounts(s.draining, s.count, s.conns, s.settled, s.requests, fd);
  }

  // ---------------------------------------------------------------------------
  // Runs

  lemma StepKeeps(s: System, step: Step)
    requires Inv(s) && Enabled(s, step)
    ensures Inv(Do(s, step))
  {
    hide Inv;
    match step
    case Poll(name, now, actions) => PollKeeps(s, name, now, actions);
    case Arrive(event) => ArriveKeeps(s, event);
    case Accept(fd, node) => AcceptKeeps(s, fd, node);
    case Ask(fd) => AskKeeps(s, fd);
    case Drop(fd) => DropKeeps(s, fd);
    case Lose(fd, nobody) => LoseKeeps(s, fd, nobody);
    case Handle(snapshot) =>
      if s.requests[0].SyncRequest? {
        SyncKeeps(s, s.requests[0].fd, snapshot);
      } else {
        CountKeeps(s, snapshot);
      }
    case BeginDrain => BeginDrainKeeps(s);
    case PopHttp => PopHttpKeeps(s);
    case PopRecent => PopRecentKeeps(s);
    case EndDrain => EndDrainKeeps(s);
    case Deliver(fd) => DeliverKeeps(s, fd);
  }

  /** The state s leads to by the steps, each taken where it is enabled. */
  ghost function Run(s: System, steps: seq<Step>): Option<System>
    decreases steps
  {
    if steps == [] then Some(s)
    else if Enabled(s, steps[0]) then Run(Do(s, steps[0]), steps[1..])
    else None
  }

  lemma {:induction false} RunKeeps(s: System, steps: seq<Step>)
    requires Inv(s)
    ensures Run(s, steps).Some? ==> Inv(Run(s, steps).value)
    decreases steps
  {
    if steps != [] && Enabled(s, steps[0]) {
      StepKeeps(s, steps[0]);
      hide Inv, Do, Enabled;
      RunKeeps(Do(s, steps[0]), steps[1..]);
    }
  }

  lemma Reachable(steps: seq<Step>) returns (s: System)
    requires Run(INITIAL, steps).Some?
    ensures s == Run(INITIAL, steps).value && Inv(s)
  {
    InitialInv();
    RunKeeps(INITIAL, steps);
    s := Run(INITIAL, steps).value;
  }

  /** What a backup will hold once its channel has drained. */
  function Settling(s: System, fd: Fd): Data
    requires fd in s.conns && s.conns[fd].node in s.backups
  {
    ApplyAll(s.backups[s.conns[fd].node].data, s.conns[fd].chan)
  }

  lemma SettlingView(s: System, fd: Fd, slot: Slot)
    requires fd in s.conns && s.conns[fd].node in s.backups && SingleServices(s.backups)
    ensures At(Settling(s, fd), slot) == InView(s.conns, s.backups, fd, slot)
  {
    ApplyAllFinal(s.backups[s.conns[fd].node].data, s.conns[fd].chan, slot);
  }

  /** Session replication: in every run, whatever the schedule, the disconnects and the farms that come and go,
      a backup whose snapshot has been sent holds exactly the master's sessions once its channel has drained,
      and before that no session that the master does not hold. */
  lemma HttpReplication(steps: seq<Step>, s: System, fd: Fd, f: string, l: nat, v: nat, k: string)
    requires Run(INITIAL, steps) == Some(s) && fd in s.conns
    ensures s.conns[fd].node in s.backups
    ensures var (b, m) := (At(Settling(s, fd), HttpSlot(f, l, v, k)), At(s.master, HttpSlot(f, l, v, k)));
            if s.conns[fd].synced then b == m else b.Some? ==> b == m
  {
    var _ := Reachable(steps);
    SettlingView(s, fd, HttpSlot(f, l, v, k));
  }

  /** Recent replication: the same for the recent entries of a node on its first connection; on a later one, which
      keeps its old entries, every entry of the master is there once the snapshot has been delivered. */
  lemma RecentReplication(steps: seq<Step>, s: System, fd: Fd, t: string, ip: string)
    requires Run(INITIAL, steps) == Some(s) && fd in s.conns
    ensures s.conns[fd].node in s.backups
    ensures var (b, m) := (At(Settling(s, fd), RecentSlot(t, ip)), At(s.master, RecentSlot(t, ip)));
            && (s.backups[s.conns[fd].node].first ==> if s.conns[fd].synced then b == m else b.Some? ==> b == m)
            && (s.conns[fd].synced && m.Some? ==> b == m)
  {
    var _ := Reachable(steps);
    SettlingView(s, fd, RecentSlot(t, ip));
  }

  /** Convergence: once the queue and the channel have drained, a synced backup on its first connection has the
      addresses and indices of the listener's latest snapshots, and the very entries if every poll was faithful. */
  lemma Convergence(steps: seq<Step>, s: System, fd: Fd, t: string, ip: string)
    requires Run(INITIAL, steps) == Some(s) && fd in s.conns
    ensures s.conns[fd].node in s.backups
    ensures s.recentQueue == [] && s.conns[fd].chan == [] && s.conns[fd].synced && s.backups[s.conns[fd].node].first ==>
              Leads(At(s.backups[s.conns[fd].node].data, RecentSlot(t, ip)), RowAt(SnapshotOf(s.snapshots, t), ip), s.faithful)
  {
    RecentReplication(steps, s, fd, t, ip);
    var _ := Reachable(steps);
    assert Leads(Coming(s.master, s.recentQueue, t, ip), RowAt(SnapshotOf(s.snapshots, t), ip), s.faithful);
    assert s.recentQueue == [] ==> AsPackets(s.recentQueue) == [];
  }

  /** Everything on a channel is a packet the codec carries, so that it arrives as OnWire says. */
  lemma ChannelsCarried(steps: seq<Step>, s: System, fd: Fd, i: nat)
    requires Run(INITIAL, steps) == Some(s) && fd in s.conns && i < |s.conns[fd].chan|
    ensures Carried(s.conns[fd].chan[i])
  {
    var _ := Reachable(steps);
  }

  lemma RunMore(s: System, steps: seq<Step>, step: Step)
    requires Run(s, steps).Some? && Enabled(Run(s, steps).value, step)
    ensures Run(s, steps + [step]) == Some(Do(Run(s, steps).value, step))
    decreases steps
  {
    hide Enabled, Do;
    if steps == [] {
      assert steps + [step] == [step] && [step][1..] == [];
    } else {
      assert (steps + [step])[1..] == steps[1..] + [step];
      RunMore(Do(s, steps[0]), steps[1..], step);
    }
  }

  /** The first k steps of a plan lead from s to t. */
  ghost predicate Reaches(s: System, plan: seq<Step>, k: nat, t: System) {
    k <= |plan| && Run(s, plan[..k]) == Some(t)
  }

  lemma ReachesStart(s: System, plan: seq<Step>)
    ensures Reaches(s, plan, 0, s)
  {
  }

  lemma ReachesNext(s: System, plan: seq<Step>, k: nat, t: System, u: System)
    requires Reaches(s, plan, k, t) && k < |plan| && Enabled(t, plan[k]) && u == Do(t, plan[k])
    ensures Reaches(s, plan, k + 1, u)
  {
    hide Enabled, Do;
    RunMore(s, plan[..k], plan[k]);
    assert plan[..k + 1] == plan[..k] + [plan[k]];
  }

  lemma ReachesEnd(s: System, plan: seq<Step>, t: System)
    requires Reaches(s, plan, |plan|, t)
    ensures Run(s, plan) == Some(t)
  {
    assert plan[..|plan|] == plan;
  }

  // ---------------------------------------------------------------------------
  // What a reconnect leaves behind

  lemma RecentSnapshot(d: Data, ps: seq<Packet>, v: Option<Value>, t: string, ip: string)
    requires MasterSound(d) && IsSnapshot(d, ps)
    ensures Final(v, ps, RecentSlot(t, ip)) == if At(d, RecentSlot(t, ip)).Some? then At(d, RecentSlot(t, ip)) else v
  {
    var slot := RecentSlot(t, ip);
    SnapshotEffects(d, ps, slot);
    FinalUniform(v, ps, slot, At(d, slot));
    if Touched(ps, slot) && At(d, slot) == None {
      var i :| 0 <= i < |ps| && Effect(ps[i], slot) != Keep;
      var from := SnapshotSource(d, ps, i);
    }
  }

  /** A node that was connected before connects again, asks, and is sent a snapshot. */
  function Reconnection(fd: Fd, node: Node, snapshot: seq<Packet>): seq<Step> {
    [Accept(fd, node), Handle([]), Ask(fd), Handle(snapshot)]
  }

  lemma ReconnectionRuns(s: System, fd: Fd, node: Node, snapshot: seq<Packet>) returns (u: System)
    requires !s.draining && s.requests == [] && Enabled(s, Accept(fd, node)) && node in s.backups && IsSnapshot(s.master, snapshot)
    ensures Run(s, Reconnection(fd, node, snapshot)) == Some(u)
    ensures u.master == s.master && fd in u.conns && u.conns[fd] == Conn(node, snapshot, true)
    ensures node in u.backups && u.backups[node].data.recent == s.backups[node].data.recent
  {
    hide IsSnapshot, Reaches, Arrived;
    var plan := Reconnection(fd, node, snapshot);
    ReachesStart(s, plan);
    var a := Do(s, Accept(fd, node));
    assert a.requests == [Connect(fd)] && a.conns[fd] == Conn(node, [], false) && a.master == s.master;
    ReachesNext(s, plan, 0, s, a);
    var b := a.(requests := [], count := a.count + 1);
    assert [Connect(fd)][1..] == [];
    ReachesNext(s, plan, 1, a, b);
    var c := b.(requests := [SyncRequest(fd)]);
    ReachesNext(s, plan, 2, b, c);
    u := Do(c, Handle(snapshot));
    assert [] + snapshot == snapshot;
    ReachesNext(s, plan, 3, c, u);
    ReachesEnd(s, plan, u);
    ArrivedRecent(s.backups, node);
  }

  lemma ArrivedRecent(backups: map<Node, Backup>, node: Node)
    requires node in backups
    ensures Arrived(backups, node).data.recent == backups[node].data.recent
  {
  }

  /** After a reconnect the node agrees with the master about an address exactly if the master has it or the node
      had not kept it: nothing tells it of what went away meanwhile. */
  lemma ReconnectExactly(steps: seq<Step>, s: System, fd: Fd, node: Node, snapshot: seq<Packet>, t: string, ip: string)
    requires Run(INITIAL, steps) == Some(s) && !s.draining && s.requests == []
    requires Enabled(s, Accept(fd, node)) && node in s.backups && IsSnapshot(s.master, snapshot)
    ensures Run(s, Reconnection(fd, node, snapshot)).Some?
    ensures var u := Run(s, Reconnection(fd, node, snapshot)).value;
            && fd in u.conns && u.conns[fd].node in u.backups && u.conns[fd].synced
            && (InView(u.conns, u.backups, fd, RecentSlot(t, ip)) == At(u.master, RecentSlot(t, ip))
                <==> At(s.master, RecentSlot(t, ip)).Some? || At(s.backups[node].data, RecentSlot(t, ip)) == None)
  {
    var _ := Reachable(steps);
    var u := ReconnectionRuns(s, fd, node, snapshot);
    hide Run, IsSnapshot, Enabled;
    RecentSnapshot(s.master, snapshot, At(s.backups[node].data, RecentSlot(t, ip)), t, ip);
  }

  lemma OneStep(s: System, step: Step)
    requires Enabled(s, step)
    ensures Run(s, [step]) == Some(Do(s, step))
  {
    assert [step][1..] == [];
  }

  lemma {:induction false} RunConcat(s: System, a: seq<Step>, b: seq<Step>)
    requires Run(s, a).Some?
    ensures Run(s, a + b) == Run(Run(s, a).value, b)
    decreases a
  {
    hide Enabled, Do;
    if a == [] {
      assert a + b == b;
    } else {
      assert (a + b)[1..] == a[1..] + b;
      RunConcat(Do(s, a[0]), a[1..], b);
    }
  }

  /** A run in which a backup joins, receives an entry, loses its connection, and the entry then expires. */
  function Joining(): seq<Step> {
    [Accept(3, 1), Handle([]), Ask(3), Handle([])]
  }

  function Learning(t: string, e: UserEntry): seq<Step> {
    [Poll(t, map[e.srcIp := e], [AddUpdEntry(t, e)]), BeginDrain, PopRecent, EndDrain, Deliver(3)]
  }

  const CLOSING: seq<Step> := [Drop(3), Handle([])]

  function Expiring(t: string, e: UserEntry): seq<Step> {
    [Poll(t, map[], [DeleteEntry(t, e.srcIp)]), BeginDrain, PopRecent, EndDrain]
  }

  function Leaving(t: string, e: UserEntry): seq<Step> {
    CLOSING + Expiring(t, e)
  }

  const JOINED := System(EMPTY, 1, [], [], [], false, map[3 := Conn(1, [], true)], map[1 := Backup(EMPTY, true)], map[], {}, true)

  function Holding(t: string, e: UserEntry): Data {
    Data(map[t := map[e.srcIp := e]], map[])
  }

  function Learned(t: string, e: UserEntry): System {
    System(Holding(t, e), 1, [], [], [], false, map[3 := Conn(1, [], true)], map[1 := Backup(Holding(t, e), true)],
           map[t := map[e.srcIp := e]], {3}, true)
  }

  function Left(t: string, e: UserEntry): System {
    System(Data(map[t := map[]], map[]), 0, [], [], [], false, map[], map[1 := Backup(Holding(t, e), true)], map[t := map[]], {}, true)
  }

  lemma JoiningRuns()
    ensures Run(INITIAL, Joining()) == Some(JOINED)
  {
    hide Reaches, IsSnapshot;
    var plan := Joining();
    ReachesStart(INITIAL, plan);
    var a := INITIAL.(requests := [Connect(3)], conns := map[3 := Conn(1, [], false)], backups := map[1 := Backup(EMPTY, true)]);
    ReachesNext(INITIAL, plan, 0, INITIAL, a);
    var b := a.(requests := [], count := 1);
    assert [Connect(3)][1..] == [];
    ReachesNext(INITIAL, plan, 1, a, b);
    var c := b.(requests := [SyncRequest(3)]);
    ReachesNext(INITIAL, plan, 2, b, c);
    NothingHeld();
    JoinedAtLast(c);
    ReachesNext(INITIAL, plan, 3, c, JOINED);
    ReachesEnd(INITIAL, plan, JOINED);
  }

  lemma NothingHeld()
    ensures IsSnapshot(EMPTY, [])
  {
  }

  lemma JoinedAtLast(c: System)
    requires c == JOINED.(requests := [SyncRequest(3)], conns := map[3 := Conn(1, [], false)])
    ensures IsSnapshot(EMPTY, []) && Enabled(c, Handle([])) && Do(c, Handle([])) == JOINED
  {
    NothingHeld();
    hide IsSnapshot;
    var nothing: seq<Packet> := [];
    assert nothing + [] == nothing && [SyncRequest(3)][1..] == [];
    assert c.conns[3 := Conn(1, [], true)] == map[3 := Conn(1, [], true)];
  }

  lemma BroadcastToOne(p: Packet)
    ensures Broadcast(map[3 := Conn(1, [], true)], p) == map[3 := Conn(1, [p], true)]
  {
    var nothing: seq<Packet> := [];
    assert nothing + [p] == [p];
  }

  lemma Polled(t: string, e: UserEntry) returns (a: System)
    requires Carried(Recent(AddUpdEntry(t, e)))
    ensures var step := Poll(t, map[e.srcIp := e], [AddUpdEntry(t, e)]); Enabled(JOINED, step) && a == Do(JOINED, step)
    ensures a == JOINED.(snapshots := map[t := map[e.srcIp := e]], recentQueue := [AddUpdEntry(t, e)])
  {
    hide Carried;
    FirstRowIsDiff(t, e);
    a := Do(JOINED, Poll(t, map[e.srcIp := e], [AddUpdEntry(t, e)]));
    assert a.recentQueue == [AddUpdEntry(t, e)] && a.faithful;
  }

  lemma AddedTo(b: System, t: string, e: UserEntry)
    requires b == JOINED.(snapshots := map[t := map[e.srcIp := e]], recentQueue := [AddUpdEntry(t, e)], draining := true, settled := {3})
    ensures Enabled(b, PopRecent)
    ensures Do(b, PopRecent) == b.(recentQueue := [], master := Holding(t, e), conns := map[3 := Conn(1, [Recent(AddUpdEntry(t, e))], true)])
  {
    BroadcastToOne(Recent(AddUpdEntry(t, e)));
    assert [AddUpdEntry(t, e)][1..] == [];
  }

  lemma LearningRuns(t: string, e: UserEntry)
    requires Carried(Recent(AddUpdEntry(t, e)))
    ensures Run(JOINED, Learning(t, e)) == Some(Learned(t, e))
  {
    hide Carried, Reaches, IsDiff, WellKeyed, Delivered, Faithful, IsSnapshot, Replicated, Apply, HttpPopped;
    var (add, plan) := (Recent(AddUpdEntry(t, e)), Learning(t, e));
    ReachesStart(JOINED, plan);
    var a := Polled(t, e);
    ReachesNext(JOINED, plan, 0, JOINED, a);
    var b := a.(draining := true, settled := {3});
    ReachesNext(JOINED, plan, 1, a, b);
    var c := b.(recentQueue := [], master := Holding(t, e), conns := map[3 := Conn(1, [add], true)]);
    AddedTo(b, t, e);
    ReachesNext(JOINED, plan, 2, b, c);
    var d := c.(draining := false);
    ReachesNext(JOINED, plan, 3, c, d);
    DeliveredToOne(d, t, e);
    ReachesNext(JOINED, plan, 4, d, Learned(t, e));
    ReachesEnd(JOINED, plan, Learned(t, e));
  }

  lemma DeliveredToOne(d: System, t: string, e: UserEntry)
    requires d == Learned(t, e).(conns := map[3 := Conn(1, [Recent(AddUpdEntry(t, e))], true)], backups := map[1 := Backup(EMPTY, true)])
    ensures Enabled(d, Deliver(3)) && Do(d, Deliver(3)) == Learned(t, e)
  {
    var add := Recent(AddUpdEntry(t, e));
    assert [add][1..] == [] && OnWire(add) == add;
    assert d.conns[3 := Conn(1, [], true)] == map[3 := Conn(1, [], true)];
    assert d.backups[1 := Backup(Holding(t, e), true)] == map[1 := Backup(Holding(t, e), true)];
  }

  lemma FirstRowIsDiff(t: string, e: UserEntry)
    ensures WellKeyed(map[e.srcIp := e]) && IsDiff(t, map[], map[e.srcIp := e], [AddUpdEntry(t, e)])
    ensures Faithful(map[], map[e.srcIp := e])
  {
    assert TargetIp([AddUpdEntry(t, e)][0]) == e.srcIp;
  }

  lemma LastRowIsDiff(t: string, e: UserEntry)
    ensures WellKeyed(map[]) && IsDiff(t, map[e.srcIp := e], map[], [DeleteEntry(t, e.srcIp)])
    ensures Faithful(map[e.srcIp := e], map[])
  {
    assert TargetIp([DeleteEntry(t, e.srcIp)][0]) == e.srcIp;
  }

  lemma Forgotten(b: System, t: string, e: UserEntry) returns (c: System)
    requires Carried(Recent(AddUpdEntry(t, e))) && b.recentQueue == [] && b.faithful && b.snapshots == map[t := map[e.srcIp := e]]
    ensures var step := Poll(t, map[], [DeleteEntry(t, e.srcIp)]); Enabled(b, step) && c == Do(b, step)
    ensures c == b.(snapshots := map[t := map[]], recentQueue := [DeleteEntry(t, e.srcIp)])
  {
    assert Carried(Recent(DeleteEntry(t, e.srcIp)));
    hide Carried;
    LastRowIsDiff(t, e);
    c := Do(b, Poll(t, map[], [DeleteEntry(t, e.srcIp)]));
    assert c.recentQueue == [DeleteEntry(t, e.srcIp)] && c.snapshots == map[t := map[]] && c.faithful;
  }

  lemma DroppedAway(t: string, e: UserEntry)
    ensures var s := Learned(t, e);
            Do(s, Drop(3)) == s.(requests := [Disconnect(3)], conns := map[], settled := {})
  {
    assert Learned(t, e).conns - {3} == map[] && Learned(t, e).settled - {3} == {};
  }

  lemma DeletedFrom(d: System, t: string, e: UserEntry)
    requires d.draining && d.master == Holding(t, e) && d.count == 0 && d.recentQueue == [DeleteEntry(t, e.srcIp)]
    ensures Enabled(d, PopRecent) && Do(d, PopRecent) == d.(recentQueue := [], master := Data(map[t := map[]], map[]))
  {
    assert map[e.srcIp := e] - {e.srcIp} == map[] && [DeleteEntry(t, e.srcIp)][1..] == [];
    assert map[t := map[e.srcIp := e]][t := map[]] == map[t := map[]];
  }

  lemma ClosingRuns(t: string, e: UserEntry)
    ensures Run(Learned(t, e), CLOSING) == Some(Learned(t, e).(conns := map[], settled := {}, count := 0))
  {
    hide Reaches, Dropped;
    var s := Learned(t, e);
    ReachesStart(s, CLOSING);
    var a := s.(requests := [Disconnect(3)], conns := map[], settled := {});
    DroppedAway(t, e);
    ReachesNext(s, CLOSING, 0, s, a);
    assert [Disconnect(3)][1..] == [];
    ReachesNext(s, CLOSING, 1, a, a.(requests := [], count := 0));
    ReachesEnd(s, CLOSING, a.(requests := [], count := 0));
  }

  lemma ExpiringRuns(t: string, e: UserEntry)
    requires Carried(Recent(AddUpdEntry(t, e)))
    ensures Run(Learned(t, e).(conns := map[], settled := {}, count := 0), Expiring(t, e)) == Some(Left(t, e))
  {
    hide Carried, Reaches, IsDiff, WellKeyed, Replicated, Apply, Faithful;
    var (b, plan) := (Learned(t, e).(conns := map[], settled := {}, count := 0), Expiring(t, e));
    ReachesStart(b, plan);
    var c := Forgotten(b, t, e);
    ReachesNext(b, plan, 0, b, c);
    var d := c.(draining := true);
    ReachesNext(b, plan, 1, c, d);
    var f := d.(recentQueue := [], master := Data(map[t := map[]], map[]));
    DeletedFrom(d, t, e);
    ReachesNext(b, plan, 2, d, f);
    ReachesNext(b, plan, 3, f, Left(t, e));
    ReachesEnd(b, plan, Left(t, e));
  }

  lemma LeavingRuns(t: string, e: UserEntry)
    requires Carried(Recent(AddUpdEntry(t, e)))
    ensures Run(Learned(t, e), Leaving(t, e)) == Some(Left(t, e))
  {
    hide Run, Carried;
    ClosingRuns(t, e);
    ExpiringRuns(t, e);
    RunConcat(Learned(t, e), CLOSING, Expiring(t, e));
  }

  /** A run, for any entry, after which a reconnect leaves the node with an entry that the master no longer has. */
  lemma ReconnectKeepsStale(t: string, e: UserEntry) returns (steps: seq<Step>)
    requires Carried(Recent(AddUpdEntry(t, e)))
    ensures Run(INITIAL, steps).Some?
    ensures var s := Run(INITIAL, steps).value;
            && 4 in s.conns && s.conns[4].node in s.backups && s.conns[4].synced && s.conns[4].chan == []
            && At(s.backups[s.conns[4].node].data, RecentSlot(t, e.srcIp)) == Some(EntryValue(e))
            && At(s.master, RecentSlot(t, e.srcIp)) == None
  {
    hide Run, Carried, IsSnapshot, Joining, Learning, Leaving, Reconnection;
    LeftBehind(t, e);
    NothingToSend(t, e);
    var u := ReconnectionRuns(Left(t, e), 4, 1, []);
    RunConcat(INITIAL, Joining() + Learning(t, e) + Leaving(t, e), Reconnection(4, 1, []));
    steps := Joining() + Learning(t, e) + Leaving(t, e) + Reconnection(4, 1, []);
  }

  lemma LeftBehind(t: string, e: UserEntry)
    requires Carried(Recent(AddUpdEntry(t, e)))
    ensures Run(INITIAL, Joining() + Learning(t, e) + Leaving(t, e)) == Some(Left(t, e))
  {
    hide *;
    JoiningRuns();
    LearningRuns(t, e);
    LeavingRuns(t, e);
    RunConcat(INITIAL, Joining(), Learning(t, e));
    RunConcat(INITIAL, Joining() + Learning(t, e), Leaving(t, e));
  }

  lemma NothingToSend(t: string, e: UserEntry)
    ensures IsSnapshot(Left(t, e).master, [])
  {
  }
}
