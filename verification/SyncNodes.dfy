// The daemons as they run: the data both nodes keep, the master's run loop, and the backup's replay.
module SyncNodes {
  import opened Seqs
  import opened XtRecentProc
  import opened Messages
  import opened Wire
  import opened Replica
  import opened Protocol
  import opened Events

  // ---------------------------------------------------------------------------
  // base_sync

  class BaseSync {
    var recentData: RecentData
    var httpSessionData: HttpData

    constructor ()
      ensures Contents() == EMPTY
    {
      recentData, httpSessionData := map[], map[];
    }

    function Contents(): Data
      reads this
    {
      Data(recentData, httpSessionData)
    }

    method ApplyRecentAction(a: RecentAction)
      modifies this`recentData
      ensures recentData == ApplyRecent(old(recentData), a)
    {
      match a {
        case DeleteTable(_) =>
        case UnknownAction(_, _) =>
        case DeleteEntry(t, ip) =>
          if t in recentData {
            recentData := recentData[t := recentData[t] - {ip}];
          }
        case FlushTable(t) =>
          recentData := recentData[t := map[]];
        case AddUpdEntry(t, e) =>
          if t !in recentData {
            recentData := recentData[t := map[]];
          }
          recentData := recentData[t := recentData[t][e.srcIp := e]];
      }
    }

    /** http_session_data[farm], which creates the farm where it is missing. */
    method Farm(farm: string) returns (listeners: map<nat, Services>)
      modifies this`httpSessionData
      ensures farm in httpSessionData && listeners == httpSessionData[farm] == FarmOf(old(httpSessionData), farm)
      ensures httpSessionData == old(httpSessionData)[farm := listeners]
    {
      if farm !in httpSessionData {
        httpSessionData := httpSessionData[farm := map[]];
      }
      listeners := httpSessionData[farm];
    }

    method ApplyHttpAction(a: HttpAction)
      modifies this`httpSessionData
      ensures httpSessionData == ApplyHttp(old(httpSessionData), a)
    {
      if a.code == CLEAR_DATA {
        var _ := Farm(a.farm);
        httpSessionData := httpSessionData[a.farm := map[]];
      } else if a.code == SESS_ADD || a.code == SESS_UPDATE {
        var listeners: map<nat, Services> := Farm(a.farm);
        ghost var farm := listeners;
        if a.listener !in listeners || a.service !in listeners[a.listener] {
          var alone: Services := map[a.service := map[]];
          listeners := listeners[a.listener := alone];
        }
        var services: Services := listeners[a.listener];
        services := services[a.service := services[a.service][a.key := SessionOf(a)]];
        assert listeners[a.listener := services] == farm[a.listener := services];
        httpSessionData := httpSessionData[a.farm := listeners[a.listener := services]];
      } else if a.code == SESS_DELETE {
        var listeners: map<nat, Services> := Farm(a.farm);
        if a.listener in listeners && a.service in listeners[a.listener] {
          var services: Services := listeners[a.listener];
          services := services[a.service := services[a.service] - {a.key}];
          httpSessionData := httpSessionData[a.farm := listeners[a.listener := services]];
        }
      }
    }

    method ClearHttpFarmData(farm: string)
      modifies this`httpSessionData
      ensures httpSessionData == ClearFarm(old(httpSessionData), farm)
    {
      if farm in httpSessionData {
        httpSessionData := httpSessionData[farm := map[]];
      }
    }
  }

  // ---------------------------------------------------------------------------
  // sync_backup

  class SyncBackup {
    const base: BaseSync

    constructor ()
      ensures base.Contents() == EMPTY && fresh(base)
    {
      base := new BaseSync();
    }

    /** The switch on a received packet's type. */
    method Dispatch(p: Packet)
      modifies base
      ensures base.Contents() == Apply(old(base.Contents()), p)
    {
      match p {
        case Recent(a) => base.ApplyRecentAction(a);
        case Http(a) => base.ApplyHttpAction(a);
        case Control(_) =>
      }
    }

    /** Everything that has arrived, in order. */
    method Replay(received: seq<Packet>)
      modifies base
      ensures base.Contents() == ApplyAll(old(base.Contents()), received)
    {
      var rest := received;
      while rest != []
        invariant ApplyAll(base.Contents(), rest) == ApplyAll(old(base.Contents()), received)
      {
        Dispatch(rest[0]);
        rest := rest[1..];
      }
    }

    /** The master is reached again: the sessions are dropped, the recent entries are not. */
    method Reconnected()
      modifies base
      ensures base.Contents() == old(base.Contents()).(http := map[])
    {
      base.httpSessionData := map[];
    }
  }

  // ---------------------------------------------------------------------------
  // sync_master

  ghost predicate AddsOneOf(d: Data, done: set<Slot>, p: Packet) {
    exists slot :: slot in done && AddsFrom(d, slot, p)
  }

  /** sent is an add for each slot of done, in some order. */
  ghost predicate SentFor(d: Data, done: set<Slot>, sent: seq<Packet>) {
    && (forall p | p in sent :: AddsOneOf(d, done, p))
    && (forall slot | slot in done :: At(d, slot).Some? && AddOf(slot, At(d, slot).value) in sent)
  }

  lemma SentForBoth(d: Data, a: set<Slot>, b: set<Slot>, x: seq<Packet>, y: seq<Packet>)
    requires SentFor(d, a, x) && SentFor(d, b, y)
    ensures SentFor(d, a + b, x + y)
  {
    hide At, AddOf, AddsFrom;
    forall p | p in x + y ensures AddsOneOf(d, a + b, p) {
      assert AddsOneOf(d, a, p) || AddsOneOf(d, b, p);
    }
  }

  lemma SentForOne(d: Data, slot: Slot)
    requires At(d, slot).Some?
    ensures SentFor(d, {slot}, [AddOf(slot, At(d, slot).value)])
  {
    assert AddsFrom(d, slot, AddOf(slot, At(d, slot).value));
    assert AddsOneOf(d, {slot}, AddOf(slot, At(d, slot).value));
  }

  lemma SentForAll(d: Data, done: set<Slot>, sent: seq<Packet>)
    requires SentFor(d, done, sent) && forall slot :: At(d, slot).Some? ==> slot in done
    ensures IsSnapshot(d, sent)
  {
    forall p | p in sent ensures exists slot :: AddsFrom(d, slot, p) {
      assert AddsOneOf(d, done, p);
    }
  }

  type Chans = map<Fd, seq<Packet>>

  /** ps sent to one connection; a closed one takes nothing. */
  function Extended(chans: Chans, fd: Fd, ps: seq<Packet>): Chans {
    if fd in chans then chans[fd := chans[fd] + ps] else chans
  }

  lemma ExtendedOn(chans: Chans, fd: Fd, a: seq<Packet>, b: seq<Packet>)
    ensures Extended(chans, fd, []) == chans
    ensures Extended(Extended(chans, fd, a), fd, b) == Extended(chans, fd, a + b)
  {
    if fd in chans {
      assert chans[fd] + [] == chans[fd] && chans[fd] + a + b == chans[fd] + (a + b);
    }
  }

  /** A connect and a disconnect move the count by one, and an open connection that asks is sent a snapshot. */
  ghost predicate Answered(r: Request, d: Data, snapshot: seq<Packet>, count: int, count': int, chans: Chans, chans': Chans) {
    && count' == (match r case Connect(_) => count + 1 case Disconnect(_) => count - 1 case SyncRequest(_) => count)
    && if r.SyncRequest? && r.fd in chans then IsSnapshot(d, snapshot) && chans' == chans[r.fd := chans[r.fd] + snapshot]
       else chans' == chans
  }

  lemma AnsweredBy(r: Request, d: Data, snapshot: seq<Packet>, count: int, chans: Chans)
    requires r.SyncRequest? && r.fd in chans ==> IsSnapshot(d, snapshot)
    ensures Answered(r, d, snapshot, count, count + (if r.Connect? then 1 else if r.Disconnect? then -1 else 0),
                     chans, if r.SyncRequest? then Extended(chans, r.fd, snapshot) else chans)
  {
    hide IsSnapshot;
  }

  /** How many of the events are sessions' events. */
  function Sessions(q: seq<HttpEvent>): (n: nat)
    ensures n <= |q|
  {
    if q == [] then 0 else Sessions(q[..|q| - 1]) + if Last(q).Session? then 1 else 0
  }

  /** A drain takes n events: all of them, or as many as it takes to the tenth session's event. */
  predicate DrainTakes(q: seq<HttpEvent>, n: nat) {
    && n <= |q| && Sessions(q[..n]) <= 10
    && (Sessions(q[..n]) < 10 ==> n == |q|)
    && (Sessions(q[..n]) == 10 ==> n > 0 && q[n - 1].Session?)
  }

  lemma SessionsNext(q: seq<HttpEvent>, n: nat)
    requires n < |q|
    ensures Sessions(q[..n + 1]) == Sessions(q[..n]) + if q[n].Session? then 1 else 0
  {
    assert q[..n + 1][..n] == q[..n];
  }

  /** What an event has done to the data and to what was sent. */
  ghost predicate EventDone(e: HttpEvent, count: int, d: Data, d': Data, chans: Chans, chans': Chans) {
    match e
    case Session(a) =>
      && (OneService(d.http) ==> forall slot :: SessionDone(a, slot, At(d, slot), At(d', slot)))
      && chans' == if count > 0 then ToAll(chans, Http(a)) else chans
    case FarmUp(farm) =>
      && (forall slot :: FarmCleared(farm, slot, At(d, slot), At(d', slot)))
      && chans' == ToAll(chans, Http(HttpAction(0, farm, 0, 0, 0, "", "", 0)))
    case FarmDown(farm) =>
      && (forall slot :: FarmCleared(farm, slot, At(d, slot), At(d', slot)))
      && chans' == ToAll(chans, Http(HttpAction(0, farm, 0, 0, 0, "", "", 0)))
  }

  function ToAll(chans: Chans, p: Packet): Chans {
    map fd | fd in chans :: chans[fd] + [p]
  }

  /** chans is what the connections carry. */
  predicate Carries(chans: Chans, conns: map<Fd, Conn>) {
    chans.Keys == conns.Keys && forall fd | fd in chans :: conns[fd].chan == chans[fd]
  }

  lemma CarriesToAll(chans: Chans, chans': Chans, conns: map<Fd, Conn>, p: Packet)
    requires Carries(chans, conns)
    ensures Carries(chans', conns) ==> chans' == chans
    ensures Carries(chans', Broadcast(conns, p)) ==> chans' == ToAll(chans, p)
  {
  }

  lemma EventIsDone(s: System, chans: Chans, chans': Chans)
    requires s.httpQueue != [] && Carries(chans, s.conns) && Carries(chans', HttpPopped(s).conns)
    ensures EventDone(s.httpQueue[0], s.count, s.master, HttpPopped(s).master, chans, chans')
  {
    hide EventDone, Replicated, Cleared, Broadcast, Carries;
    var t := s.(httpQueue := s.httpQueue[1..]);
    match s.httpQueue[0]
    case Session(a) => SessionEventDone(t, a, chans, chans');
    case FarmUp(farm) => FarmEventDone(t, farm, chans, chans');
    case FarmDown(farm) => FarmEventDone(t, farm, chans, chans');
  }

  lemma SessionEventDone(s: System, a: HttpAction, chans: Chans, chans': Chans)
    requires Carries(chans, s.conns) && Carries(chans', Replicated(s, Http(a)).conns)
    ensures EventDone(HttpEvent.Session(a), s.count, s.master, Replicated(s, Http(a)).master, chans, chans')
  {
    hide At, SessionDone, Apply, OneService, Broadcast, Carries, ToAll;
    SessionIsDone(s, a);
    CarriesToAll(chans, chans', s.conns, Http(a));
  }

  lemma FarmEventDone(s: System, farm: string, chans: Chans, chans': Chans)
    requires Carries(chans, s.conns) && Carries(chans', Cleared(s, farm).conns)
    ensures EventDone(FarmUp(farm), s.count, s.master, Cleared(s, farm).master, chans, chans')
    ensures EventDone(FarmDown(farm), s.count, s.master, Cleared(s, farm).master, chans, chans')
  {
    hide At, FarmCleared, ClearFarm, Broadcast, Carries, ToAll;
    FarmIsDone(s, farm);
    CarriesToAll(chans, chans', s.conns, Http(ClearOf(farm)));
  }

  lemma SessionIsDone(s: System, a: HttpAction)
    ensures OneService(s.master.http) ==> forall slot :: SessionDone(a, slot, At(s.master, slot), At(Replicated(s, Http(a)).master, slot))
  {
    hide At, SessionDone, Apply, OneService;
    if OneService(s.master.http) {
      forall slot ensures SessionDone(a, slot, At(s.master, slot), At(Replicated(s, Http(a)).master, slot)) {
        SessionApplied(s.master, a, slot);
      }
    }
  }

  lemma FarmIsDone(s: System, farm: string)
    ensures forall slot :: FarmCleared(farm, slot, At(s.master, slot), At(Cleared(s, farm).master, slot))
  {
    hide At, FarmCleared, ClearFarm;
    forall slot ensures FarmCleared(farm, slot, At(s.master, slot), At(Cleared(s, farm).master, slot)) {
      FarmApplied(s.master.http, s.master.recent, farm, slot);
    }
  }

  /** What a recent action has done. */
  ghost predicate ActionDone(a: RecentAction, count: int, d: Data, d': Data, chans: Chans, chans': Chans) {
    && (forall slot :: RecentDone(a, slot, At(d, slot), At(d', slot)))
    && chans' == if count > 0 then ToAll(chans, Recent(a)) else chans
  }

  lemma ActionIsDone(s: System, a: RecentAction, chans: Chans, chans': Chans)
    requires Carries(chans, s.conns) && Carries(chans', Replicated(s, Recent(a)).conns)
    ensures ActionDone(a, s.count, s.master, Replicated(s, Recent(a)).master, chans, chans')
  {
    hide At, RecentDone, Apply, Broadcast, Carries, ToAll;
    CarriesToAll(chans, chans', s.conns, Recent(a));
    forall slot ensures RecentDone(a, slot, At(s.master, slot), At(Replicated(s, Recent(a)).master, slot)) {
      RecentApplied(s.master, a, slot);
    }
  }

  class SyncMaster {
    const base: BaseSync
    var backupServersFd: int
    var requests: seq<Request>
    var recentInput: seq<RecentAction>
    var httpInput: seq<HttpEvent>
    var chans: Chans
    /** The protocol state this object is the master's part of. */
    ghost var sys: System

    ghost predicate Valid()
      reads this, base
    {
      && sys.master == base.Contents()
      && sys.count == backupServersFd && sys.requests == requests
      && sys.recentQueue == recentInput && sys.httpQueue == httpInput
      && Carries(chans, sys.conns)
    }

    constructor ()
      ensures Valid() && fresh(base) && sys == INITIAL
    {
      base := new BaseSync();
      backupServersFd, requests, recentInput, httpInput, chans := 0, [], [], [], map[];
      sys := INITIAL;
    }

    /** send_packet to one connection. */
    method SendTo(fd: Fd, p: Packet) returns (ok: bool)
      modifies this`chans
      ensures ok == (fd in old(chans)) && chans == Extended(old(chans), fd, [p])
    {
      ok := fd in chans;
      if ok {
        chans := chans[fd := chans[fd] + [p]];
      }
    }

    /** send_packet with fd -1: to every connected node. */
    method SendToAll(p: Packet)
      modifies this`chans
      ensures chans == map fd | fd in old(chans) :: old(chans)[fd] + [p]
    {
      var left := chans.Keys;
      while left != {}
        invariant left <= chans.Keys == old(chans).Keys
        invariant forall fd | fd in chans :: chans[fd] == if fd in left then old(chans)[fd] else old(chans)[fd] + [p]
        decreases |left|
      {
        var fd :| fd in left;
        var _ := SendTo(fd, p);
        left := left - {fd};
      }
    }

    /** The entries of one table, in handle_recent_sync. */
    method SendTable(fd: Fd, t: string) returns (ok: bool, ghost done: set<Slot>, ghost sent: seq<Packet>)
      requires t in base.recentData
      modifies this`chans
      ensures chans == Extended(old(chans), fd, sent)
      ensures fd in old(chans) ==> ok && SentFor(base.Contents(), done, sent)
                                   && forall ip | ip in base.recentData[t] :: RecentSlot(t, ip) in done
    {
      hide SentFor, AddsFrom;
      var entries := base.recentData[t];
      ghost var d := base.Contents();
      ok, done, sent := true, {}, [];
      SentForNone(d);
      ExtendedOn(chans, fd, [], []);
      var left := entries.Keys;
      while left != {}
        invariant left <= entries.Keys && ok
        invariant chans == Extended(old(chans), fd, sent)
        invariant SentFor(d, done, sent)
        invariant forall ip | ip in entries.Keys - left :: RecentSlot(t, ip) in done
        decreases |left|
      {
        var ip :| ip in left;
        left := left - {ip};
        var p := Recent(AddUpdEntry(t, entries[ip]));
        ghost var slot := RecentSlot(t, ip);
        assert At(d, slot) == Some(EntryValue(entries[ip])) && AddOf(slot, At(d, slot).value) == p;
        SentForOne(d, slot);
        SentForBoth(d, done, {slot}, sent, [p]);
        ExtendedOn(old(chans), fd, sent, [p]);
        ok := SendTo(fd, p);
        done, sent := done + {slot}, sent + [p];
        if !ok {
          return;
        }
      }
    }

    method HandleRecentSync(fd: Fd) returns (ok: bool, ghost done: set<Slot>, ghost sent: seq<Packet>)
      modifies this`chans
      ensures chans == Extended(old(chans), fd, sent)
      ensures fd in old(chans) ==> ok && SentFor(base.Contents(), done, sent)
                                   && forall t, ip | t in base.recentData && ip in base.recentData[t] :: RecentSlot(t, ip) in done
    {
      hide SentFor, At;
      ghost var d := base.Contents();
      ok, done, sent := true, {}, [];
      SentForNone(d);
      ExtendedOn(chans, fd, [], []);
      var left := base.recentData.Keys;
      while left != {}
        invariant left <= base.recentData.Keys && ok
        invariant chans == Extended(old(chans), fd, sent)
        invariant fd in old(chans) ==> SentFor(d, done, sent)
        invariant fd in old(chans) ==> forall t, ip | t in base.recentData.Keys - left && ip in base.recentData[t] :: RecentSlot(t, ip) in done
        decreases |left|
      {
        var t :| t in left;
        left := left - {t};
        ghost var more, ps;
        ok, more, ps := SendTable(fd, t);
        ExtendedOn(old(chans), fd, sent, ps);
        if fd in old(chans) {
          SentForBoth(d, done, more, sent, ps);
        }
        done, sent := done + more, sent + ps;
        if !ok {
          return;
        }
      }
    }

    /** The sessions of one service, in handle_http_sync. */
    method SendSessions(fd: Fd, f: string, l: nat, v: nat) returns (ghost done: set<Slot>, ghost sent: seq<Packet>)
      requires f in base.httpSessionData && l in base.httpSessionData[f] && v in base.httpSessionData[f][l]
      modifies this`chans
      ensures chans == Extended(old(chans), fd, sent)
      ensures SentFor(base.Contents(), done, sent)
      ensures forall k | k in base.httpSessionData[f][l][v] :: HttpSlot(f, l, v, k) in done
    {
      hide SentFor, AddsFrom;
      var sessions := base.httpSessionData[f][l][v];
      ghost var d := base.Contents();
      done, sent := {}, [];
      SentForNone(d);
      ExtendedOn(chans, fd, [], []);
      var left := sessions.Keys;
      while left != {}
        invariant left <= sessions.Keys
        invariant chans == Extended(old(chans), fd, sent)
        invariant SentFor(d, done, sent)
        invariant forall k | k in sessions.Keys - left :: HttpSlot(f, l, v, k) in done
        decreases |left|
      {
        var k :| k in left;
        left := left - {k};
        var x := sessions[k];
        var p := Http(HttpAction(SESS_ADD, f, l, v, x.backendId, k, x.content, x.lastAcc));
        ghost var slot := HttpSlot(f, l, v, k);
        assert At(d, slot) == Some(SessionValue(x)) && AddOf(slot, At(d, slot).value) == p;
        SentForOne(d, slot);
        SentForBoth(d, done, {slot}, sent, [p]);
        ExtendedOn(old(chans), fd, sent, [p]);
        var _ := SendTo(fd, p);
        done, sent := done + {slot}, sent + [p];
      }
    }

    /** The services of one listener. */
    method SendServices(fd: Fd, f: string, l: nat) returns (ghost done: set<Slot>, ghost sent: seq<Packet>)
      requires f in base.httpSessionData && l in base.httpSessionData[f]
      modifies this`chans
      ensures chans == Extended(old(chans), fd, sent)
      ensures SentFor(base.Contents(), done, sent)
      ensures forall v, k | v in base.httpSessionData[f][l] && k in base.httpSessionData[f][l][v] :: HttpSlot(f, l, v, k) in done
    {
      hide SentFor, At;
      var services := base.httpSessionData[f][l];
      ghost var d := base.Contents();
      done, sent := {}, [];
      SentForNone(d);
      ExtendedOn(chans, fd, [], []);
      var left := services.Keys;
      while left != {}
        invariant left <= services.Keys
        invariant chans == Extended(old(chans), fd, sent)
        invariant SentFor(d, done, sent)
        invariant forall v, k | v in services.Keys - left && k in services[v] :: HttpSlot(f, l, v, k) in done
        decreases |left|
      {
        var v :| v in left;
        left := left - {v};
        ghost var more, ps := SendSessions(fd, f, l, v);
        ExtendedOn(old(chans), fd, sent, ps);
        SentForBoth(d, done, more, sent, ps);
        done, sent := done + more, sent + ps;
      }
    }

    /** The listeners of one farm. */
    method SendListeners(fd: Fd, f: string) returns (ghost done: set<Slot>, ghost sent: seq<Packet>)
      requires f in base.httpSessionData
      modifies this`chans
      ensures chans == Extended(old(chans), fd, sent)
      ensures SentFor(base.Contents(), done, sent)
      ensures forall l, v, k | l in base.httpSessionData[f] && v in base.httpSessionData[f][l] && k in base.httpSessionData[f][l][v] ::
                HttpSlot(f, l, v, k) in done
    {
      hide SentFor, At;
      var listeners := base.httpSessionData[f];
      ghost var d := base.Contents();
      done, sent := {}, [];
      SentForNone(d);
      ExtendedOn(chans, fd, [], []);
      var left := listeners.Keys;
      while left != {}
        invariant left <= listeners.Keys
        invariant chans == Extended(old(chans), fd, sent)
        invariant SentFor(d, done, sent)
        invariant forall l, v, k | l in listeners.Keys - left && v in listeners[l] && k in listeners[l][v] :: HttpSlot(f, l, v, k) in done
        decreases |left|
      {
        var l :| l in left;
        left := left - {l};
        ghost var more, ps := SendServices(fd, f, l);
        ExtendedOn(old(chans), fd, sent, ps);
        SentForBoth(d, done, more, sent, ps);
        done, sent := done + more, sent + ps;
      }
    }

    method HandleHttpSync(fd: Fd) returns (ghost done: set<Slot>, ghost sent: seq<Packet>)
      modifies this`chans
      ensures chans == Extended(old(chans), fd, sent)
      ensures SentFor(base.Contents(), done, sent)
      ensures forall f, l, v, k | At(base.Contents(), HttpSlot(f, l, v, k)).Some? :: HttpSlot(f, l, v, k) in done
    {
      hide SentFor;
      ghost var d := base.Contents();
      done, sent := {}, [];
      SentForNone(d);
      ExtendedOn(chans, fd, [], []);
      var left := base.httpSessionData.Keys;
      while left != {}
        invariant left <= base.httpSessionData.Keys
        invariant chans == Extended(old(chans), fd, sent)
        invariant SentFor(d, done, sent)
        invariant forall f, l, v, k | f in base.httpSessionData.Keys - left && At(d, HttpSlot(f, l, v, k)).Some? :: HttpSlot(f, l, v, k) in done
        decreases |left|
      {
        var f :| f in left;
        left := left - {f};
        ghost var more, ps := SendListeners(fd, f);
        ExtendedOn(old(chans), fd, sent, ps);
        SentForBoth(d, done, more, sent, ps);
        done, sent := done + more, sent + ps;
      }
    }

    /** SYNC_REQUEST: everything the master holds, to the one that asked. */
    method HandleSync(fd: Fd) returns (ghost snapshot: seq<Packet>)
      modifies this`chans
      ensures chans == Extended(old(chans), fd, snapshot)
      ensures fd in old(chans) ==> IsSnapshot(base.Contents(), snapshot)
    {
      hide SentFor;
      ghost var d := base.Contents();
      var _, recent, ps := HandleRecentSync(fd);
      ghost var http, qs := HandleHttpSync(fd);
      ExtendedOn(old(chans), fd, ps, qs);
      snapshot := ps + qs;
      if fd in old(chans) {
        SentForBoth(d, recent, http, ps, qs);
        AllSlots(d, recent, http);
        SentForAll(d, recent + http, snapshot);
      }
    }

    /** The switch on a request's type. */
    method Serve(r: Request) returns (ghost snapshot: seq<Packet>)
      modifies this`backupServersFd, this`chans
      ensures backupServersFd == old(backupServersFd) + (if r.Connect? then 1 else if r.Disconnect? then -1 else 0)
      ensures chans == if r.SyncRequest? then Extended(old(chans), r.fd, snapshot) else old(chans)
      ensures r.SyncRequest? && r.fd in old(chans) ==> IsSnapshot(base.Contents(), snapshot)
    {
      hide IsSnapshot, Extended;
      snapshot := [];
      match r {
        case Connect(_) => backupServersFd := backupServersFd + 1;
        case Disconnect(_) => backupServersFd := backupServersFd - 1;
        case SyncRequest(fd) => snapshot := HandleSync(fd);
      }
    }

    /** The head of the request queue. */
    method HandleRequest() returns (ghost snapshot: seq<Packet>)
      requires Valid() && requests != [] && !sys.draining
      modifies this`requests, this`backupServersFd, this`chans, this`sys
      ensures requests == old(requests)[1..]
      ensures Answered(old(requests)[0], base.Contents(), snapshot, old(backupServersFd), backupServersFd, old(chans), chans)
      ensures Valid() && Enabled(old(sys), Handle(snapshot)) && sys == Do(old(sys), Handle(snapshot))
    {
      hide IsSnapshot, Enabled, Do, Handled, Extended;
      ghost var s := sys;
      assert chans.Keys == s.conns.Keys;
      hide Carries;
      snapshot := Serve(requests[0]);
      requests := requests[1..];
      HandleEnabled(s, snapshot);
      HandledParts(s, snapshot, old(chans));
      AnsweredBy(s.requests[0], base.Contents(), snapshot, old(backupServersFd), old(chans));
      sys := Handled(s, snapshot);
    }

    /** What the request's branch has done, on the other side of the abstraction. */
    static lemma HandledParts(s: System, snapshot: seq<Packet>, chans: Chans)
      requires s.requests != [] && Carries(chans, s.conns)
      ensures var (r, u) := (s.requests[0], Handled(s, snapshot));
              && u == s.(requests := s.requests[1..], count := u.count, conns := u.conns)
              && u.count == s.count + (if r.Connect? then 1 else if r.Disconnect? then -1 else 0)
              && Carries(if r.SyncRequest? then Extended(chans, r.fd, snapshot) else chans, u.conns)
    {
    }

    /** send_packet with fd -1, on both sides of the abstraction. */
    method Publish(p: Packet)
      requires Carries(chans, sys.conns)
      modifies this`chans, this`sys
      ensures Carries(chans, sys.conns) && sys == old(sys).(conns := Broadcast(old(sys).conns, p))
    {
      SendToAll(p);
      sys := sys.(conns := Broadcast(sys.conns, p));
    }

    method ReplicateHttp(a: HttpAction)
      requires Valid()
      modifies this`chans, this`sys, base
      ensures Valid() && sys == Replicated(old(sys), Http(a))
    {
      base.ApplyHttpAction(a);
      sys := sys.(master := Apply(sys.master, Http(a)));
      if backupServersFd > 0 {
        Publish(Http(a));
      }
    }

    method ReplicateRecent(a: RecentAction)
      requires Valid()
      modifies this`chans, this`sys, base
      ensures Valid() && sys == Replicated(old(sys), Recent(a))
    {
      base.ApplyRecentAction(a);
      sys := sys.(master := Apply(sys.master, Recent(a)));
      if backupServersFd > 0 {
        Publish(Recent(a));
      }
    }

    /** A farm's service came or went. */
    method ClearFarmEverywhere(farm: string)
      requires Valid()
      modifies this`chans, this`sys, base
      ensures Valid() && sys == Cleared(old(sys), farm)
    {
      Publish(Http(ClearOf(farm)));
      base.ClearHttpFarmData(farm);
      sys := sys.(master := sys.master.(http := ClearFarm(sys.master.http, farm)));
    }

    /** What the http drain does with one event. */
    method PopHttpEvent() returns (counted: bool)
      requires Valid() && httpInput != []
      modifies this`httpInput, this`chans, this`sys, base
      ensures Valid() && sys == HttpPopped(old(sys)) && counted == old(httpInput)[0].Session?
      ensures httpInput == old(httpInput)[1..]
      ensures EventDone(old(httpInput)[0], backupServersFd, old(base.Contents()), base.Contents(), old(chans), chans)
    {
      ghost var s := sys;
      var e := httpInput[0];
      httpInput := httpInput[1..];
      sys := sys.(httpQueue := httpInput);
      counted := e.Session?;
      hide Cleared, Replicated, Carries;
      match e {
        case Session(a) => ReplicateHttp(a);
        case FarmUp(farm) => ClearFarmEverywhere(farm);
        case FarmDown(farm) => ClearFarmEverywhere(farm);
      }
      EventIsDone(s, old(chans), chans);
    }

    method PopRecentAction()
      requires Valid() && recentInput != [] && sys.draining
      modifies this`recentInput, this`chans, this`sys, base
      ensures Valid() && sys == Do(old(sys), PopRecent) && recentInput == old(recentInput)[1..]
      ensures ActionDone(old(recentInput)[0], backupServersFd, old(base.Contents()), base.Contents(), old(chans), chans)
    {
      var a := recentInput[0];
      recentInput := recentInput[1..];
      sys := sys.(recentQueue := recentInput);
      ghost var s := sys;
      hide Replicated, Carries;
      ReplicateRecent(a);
      ActionIsDone(s, a, old(chans), chans);
    }

    /** At most ten actions; farms that come and go do not count. wait: the queue ran empty before that. */
    method DrainHttp() returns (wait: bool, ghost steps: seq<Step>)
      requires Valid() && sys.draining
      modifies this`httpInput, this`chans, this`sys, base
      ensures Valid() && sys.draining && Run(old(sys), steps) == Some(sys)
      ensures steps == seq(|steps|, _ => PopHttp) && DrainTakes(old(httpInput), |steps|) && httpInput == old(httpInput)[|steps|..]
      ensures wait <==> Sessions(old(httpInput)[..|steps|]) < 10
    {
      hide Do, Carries, HttpPopped, EventDone;
      var maxItems := 0;
      steps := [];
      ghost var q := httpInput;
      while true
        invariant Valid() && sys.draining && Run(old(sys), steps) == Some(sys)
        invariant steps == seq(|steps|, _ => PopHttp) && |steps| <= |q| && httpInput == q[|steps|..]
        invariant maxItems == Sessions(q[..|steps|]) <= 10
        invariant maxItems == 10 ==> |steps| > 0 && q[|steps| - 1].Session?
        decreases |httpInput|
      {
        if maxItems == 10 {
          return false, steps;
        }
        if httpInput == [] {
          return true, steps;
        }
        RunMore(old(sys), steps, PopHttp);
        HttpPoppedDrains(sys);
        SessionsNext(q, |steps|);
        var counted := PopHttpEvent();
        steps := steps + [PopHttp];
        if counted {
          maxItems := maxItems + 1;
        }
      }
    }

    /** At most ten actions. */
    method DrainRecent(wait: bool) returns (waiting: bool, ghost steps: seq<Step>)
      requires Valid() && sys.draining
      modifies this`recentInput, this`chans, this`sys, base
      ensures Valid() && sys.draining && Run(old(sys), steps) == Some(sys)
      ensures var n := if |old(recentInput)| < 10 then |old(recentInput)| else 10;
              steps == seq(n, _ => PopRecent) && recentInput == old(recentInput)[n..] && waiting == (wait && n < 10)
    {
      hide Do, Carries, ActionDone;
      var maxItems := 0;
      steps := [];
      while true
        invariant Valid() && sys.draining && Run(old(sys), steps) == Some(sys)
        invariant maxItems <= 10 && maxItems <= |old(recentInput)| && recentInput == old(recentInput)[maxItems..]
        invariant steps == seq(maxItems, _ => PopRecent)
        decreases |recentInput|
      {
        if maxItems == 10 {
          return false, steps;
        }
        if recentInput == [] {
          return wait, steps;
        }
        RunMore(old(sys), steps, PopRecent);
        RecentPoppedDrains(sys);
        PopRecentAction();
        maxItems := maxItems + 1;
        steps := steps + [PopRecent];
      }
    }

    /** The drains, once no request is waiting. */
    method DrainBoth() returns (waiting: bool, ghost steps: seq<Step>)
      requires Valid() && !sys.draining && requests == []
      modifies this`httpInput, this`recentInput, this`chans, this`sys, base
      ensures Valid() && !sys.draining && Run(old(sys), steps) == Some(sys)
      ensures BothDrained(old(httpInput), httpInput, old(recentInput), recentInput, waiting, steps)
    {
      hide Do, Enabled, Run, Carries, DrainTakes, BothDrained, Sessions;
      ghost var s := sys;
      DrainBegins(s);
      sys := s.(draining := true, settled := s.conns.Keys);
      OneStep(s, BeginDrain);
      ghost var more, others;
      waiting, more := DrainHttp();
      RunConcat(s, [BeginDrain], more);
      waiting, others := DrainRecent(waiting);
      RunConcat(s, [BeginDrain] + more, others);
      DrainEnds(sys);
      RunMore(s, [BeginDrain] + more + others, EndDrain);
      sys := sys.(draining := false);
      steps := [BeginDrain] + more + others + [EndDrain];
      BothAre(old(httpInput), old(recentInput), more, others, waiting);
    }

    /** One turn of run's loop, with both listeners running: a request if there is one, else a pause if there was
        nothing to do the last time, else the drains. */
    method RunOnce(wait: bool) returns (waiting: bool, ghost steps: seq<Step>, ghost sent: seq<Packet>)
      requires Valid() && !sys.draining
      modifies this, base
      ensures Valid() && !sys.draining && Run(old(sys), steps) == Some(sys)
      ensures old(requests) != [] ==>
                && requests == old(requests)[1..] && waiting == wait && steps == [Handle(sent)]
                && httpInput == old(httpInput) && recentInput == old(recentInput) && base.Contents() == old(base.Contents())
                && Answered(old(requests)[0], base.Contents(), sent, old(backupServersFd), backupServersFd, old(chans), chans)
      ensures old(requests) == [] && wait ==> !waiting && steps == [] && unchanged(this) && unchanged(base)
      ensures old(requests) == [] && !wait ==>
                && requests == [] && backupServersFd == old(backupServersFd)
                && BothDrained(old(httpInput), httpInput, old(recentInput), recentInput, waiting, steps)
    {
      hide Do, Enabled, Run, Carries, Answered, BothDrained;
      sent := [];
      if requests != [] {
        sent := HandleRequest();
        OneStep(old(sys), Handle(sent));
        HandleNotDraining(old(sys), sent);
        return wait, [Handle(sent)], sent;
      }
      if wait {
        NoStep(sys);
        return false, [], sent;
      }
      waiting, steps := DrainBoth();
    }

    /** Turn after turn, until the worker is stopped. As each turn takes something off, queues that nobody adds to are
        empty after as many turns as they held entries, and one pause. */
    method RunTurns(turns: nat)
      requires Valid() && !sys.draining
      modifies this, base
      ensures Valid() && !sys.draining
      ensures turns > old(|requests| + |httpInput| + |recentInput|) ==> requests == [] && httpInput == [] && recentInput == []
    {
      hide Do, Enabled, Run, Carries, Answered, BothDrained, Sessions;
      var wait := true;
      for i := 0 to turns
        invariant Valid() && !sys.draining
        invariant |requests| + |httpInput| + |recentInput| + (if wait then 1 else 0) + i <= old(|requests| + |httpInput| + |recentInput|) + 1
                  || (requests == [] && httpInput == [] && recentInput == [])
      {
        ghost var asked, http, recent := requests != [], httpInput, recentInput;
        var again;
        ghost var steps, sent;
        again, steps, sent := RunOnce(wait);
        if !asked && !wait {
          DrainsProgress(http, httpInput, recent, recentInput, again, steps);
        }
        wait := again;
      }
    }
  }

  /** What one drain of both queues takes and tells. */
  predicate BothDrained(http: seq<HttpEvent>, http': seq<HttpEvent>, recent: seq<RecentAction>, recent': seq<RecentAction>,
                        waiting: bool, steps: seq<Step>)
  {
    var m := if |recent| < 10 then |recent| else 10;
    && |http'| <= |http|
    && var n := |http| - |http'|;
       && DrainTakes(http, n) && http' == http[n..] && recent' == recent[m..]
       && steps == [BeginDrain] + seq(n, _ => PopHttp) + seq(m, _ => PopRecent) + [EndDrain]
       && (waiting <==> Sessions(http[..n]) < 10 && |recent| < 10)
  }

  lemma BothAre(http: seq<HttpEvent>, recent: seq<RecentAction>, more: seq<Step>, others: seq<Step>, waiting: bool)
    requires more == seq(|more|, _ => PopHttp) && DrainTakes(http, |more|)
    requires var m := if |recent| < 10 then |recent| else 10; others == seq(m, _ => PopRecent)
    requires waiting <==> Sessions(http[..|more|]) < 10 && |recent| < 10
    ensures var m := if |recent| < 10 then |recent| else 10;
            BothDrained(http, http[|more|..], recent, recent[m..], waiting, [BeginDrain] + more + others + [EndDrain])
  {
    assert |http| - |http[|more|..]| == |more|;
    hide Sessions, DrainTakes;
  }

  lemma DrainsProgress(http: seq<HttpEvent>, http': seq<HttpEvent>, recent: seq<RecentAction>, recent': seq<RecentAction>,
                       waiting: bool, steps: seq<Step>)
    requires BothDrained(http, http', recent, recent', waiting, steps)
    ensures |http'| + |recent'| <= |http| + |recent|
    ensures |http| + |recent| > 0 ==> |http'| + |recent'| < |http| + |recent|
    ensures waiting ==> http' == [] && recent' == []
    ensures http == [] ==> http' == []
    ensures recent == [] ==> recent' == []
  {
  }

  lemma SentForNone(d: Data)
    ensures SentFor(d, {}, [])
  {
  }

  lemma AllSlots(d: Data, recent: set<Slot>, http: set<Slot>)
    requires forall t, ip | t in d.recent && ip in d.recent[t] :: RecentSlot(t, ip) in recent
    requires forall f, l, v, k | At(d, HttpSlot(f, l, v, k)).Some? :: HttpSlot(f, l, v, k) in http
    ensures forall slot :: At(d, slot).Some? ==> slot in recent + http
  {
    forall slot | At(d, slot).Some? ensures slot in recent + http {
      match slot
      case RecentSlot(t, ip) => assert RecentSlot(t, ip) in recent;
      case HttpSlot(f, l, v, k) => assert HttpSlot(f, l, v, k) in http;
    }
  }

  lemma HttpPoppedDrains(s: System)
    requires s.httpQueue != []
    ensures HttpPopped(s).draining == s.draining
    ensures s.draining ==> Enabled(s, PopHttp) && Do(s, PopHttp) == HttpPopped(s)
  {
  }

  lemma RecentPoppedDrains(s: System)
    requires s.recentQueue != [] && s.draining
    ensures Enabled(s, PopRecent) && Do(s, PopRecent).draining
  {
  }

  lemma DrainBegins(s: System)
    requires !s.draining && s.requests == []
    ensures Enabled(s, BeginDrain) && Do(s, BeginDrain) == s.(draining := true, settled := s.conns.Keys)
  {
  }

  lemma DrainEnds(s: System)
    requires s.draining
    ensures Enabled(s, EndDrain) && Do(s, EndDrain) == s.(draining := false)
  {
  }

  lemma NoStep(s: System)
    ensures Run(s, []) == Some(s)
  {
  }

  lemma HandleEnabled(s: System, snapshot: seq<Packet>)
    requires !s.draining && s.requests != []
    requires s.requests[0].SyncRequest? && s.requests[0].fd in s.conns ==> IsSnapshot(s.master, snapshot)
    ensures Enabled(s, Handle(snapshot)) && Do(s, Handle(snapshot)) == Handled(s, snapshot)
  {
  }

  lemma HandleNotDraining(s: System, snapshot: seq<Packet>)
    requires Enabled(s, Handle(snapshot))
    ensures !Do(s, Handle(snapshot)).draining
  {
  }

}
