// What the listeners' events do to the master and to what its backups will hold, slot by slot.
module Events {
  import opened Seqs
  import opened XtRecentProc
  import opened Messages
  import opened Wire
  import opened Replica
  import opened Protocol

  /** A slot before and after a farm has come or gone: nothing of the farm is left. */
  predicate FarmCleared(farm: string, slot: Slot, was: Option<Value>, now: Option<Value>) {
    now == if slot.HttpSlot? && slot.farm == farm then None else was
  }

  /** A slot before and after a session's event. CLEAR_DATA is 0, SESS_ADD 2, SESS_DELETE 3 and SESS_UPDATE 4; the
      other kinds leave the sessions alone. A listener has one service: another one takes its place. */
  predicate SessionDone(a: HttpAction, slot: Slot, was: Option<Value>, now: Option<Value>) {
    if !slot.HttpSlot? || slot.farm != a.farm then now == was
    else if a.code == 0 then now == None
    else if slot.listener != a.listener || a.code !in {2, 3, 4} then now == was
    else if a.code == 3 then now == if slot.service == a.service && slot.key == a.key then None else was
    else if slot.service != a.service then now == None
    else now == if slot.key == a.key then Some(SessionValue(Session.Session(a.backend, a.content, a.lastAcc))) else was
  }

  /** A slot before and after a recent action. */
  predicate RecentDone(a: RecentAction, slot: Slot, was: Option<Value>, now: Option<Value>) {
    match a
    case AddUpdEntry(t, e) => now == if slot == RecentSlot(t, e.srcIp) then Some(EntryValue(e)) else was
    case DeleteEntry(t, ip) => now == if slot == RecentSlot(t, ip) then None else was
    case FlushTable(t) => now == if slot.RecentSlot? && slot.table == t then None else was
    case _ => now == was
  }

  // ---------------------------------------------------------------------------
  // One node

  /** An http action on the nested maps. */
  lemma SessionApplied(d: Data, a: HttpAction, slot: Slot)
    requires OneService(d.http)
    ensures SessionDone(a, slot, At(d, slot), At(Apply(d, Http(a)), slot))
  {
    ApplyEffect(d, Http(a), slot);
    hide Apply, At, OneService;
  }

  lemma RecentApplied(d: Data, a: RecentAction, slot: Slot)
    ensures RecentDone(a, slot, At(d, slot), At(Apply(d, Recent(a)), slot))
  {
  }

  lemma FarmApplied(d: HttpData, recent: RecentData, farm: string, slot: Slot)
    ensures FarmCleared(farm, slot, At(Data(recent, d), slot), At(Data(recent, ClearFarm(d, farm)), slot))
  {
  }

  /** The same for what a backup will hold once the packet has arrived. */
  lemma Sent(s: System, p: Packet, fd: Fd, slot: Slot)
    requires Linked(s.conns, s.backups) && fd in s.conns
    ensures fd in Broadcast(s.conns, p) && Broadcast(s.conns, p)[fd].node in s.backups
    ensures p.Http? ==> SessionDone(p.request, slot, InView(s.conns, s.backups, fd, slot), InView(Broadcast(s.conns, p), s.backups, fd, slot))
    ensures p.Recent? ==> RecentDone(p.action, slot, InView(s.conns, s.backups, fd, slot), InView(Broadcast(s.conns, p), s.backups, fd, slot))
  {
    BroadcastView(s.conns, s.backups, p, fd, slot);
    hide InView;
  }

  lemma ClearIsDone(farm: string, slot: Slot, was: Option<Value>, now: Option<Value>)
    requires SessionDone(ClearOf(farm), slot, was, now)
    ensures FarmCleared(farm, slot, was, now)
  {
  }

  // ---------------------------------------------------------------------------
  // The master and every connected backup

  /** What a connected backup will hold once its channel has drained. */
  function ViewOf(s: System, fd: Fd, slot: Slot): Option<Value>
    requires fd in s.conns && s.conns[fd].node in s.backups
  {
    InView(s.conns, s.backups, fd, slot)
  }

  /** A farm that came or went is cleared at the master and at every connected backup, counted or not; everything
      else stays. */
  lemma FarmEventMeans(s: System, farm: string, slot: Slot)
    requires Linked(s.conns, s.backups) && s.httpQueue != [] && s.httpQueue[0] in {FarmUp(farm), FarmDown(farm)}
    ensures var u := HttpPopped(s);
            && u.httpQueue == s.httpQueue[1..] && u.recentQueue == s.recentQueue && u.conns.Keys == s.conns.Keys && u.backups == s.backups
            && FarmCleared(farm, slot, At(s.master, slot), At(u.master, slot))
            && forall fd | fd in s.conns :: u.conns[fd].node in u.backups && FarmCleared(farm, slot, ViewOf(s, fd, slot), ViewOf(u, fd, slot))
  {
    hide At, InView, Broadcast, FarmCleared, SessionDone, ClearFarm;
    var (u, p) := (HttpPopped(s), Http(ClearOf(farm)));
    FarmApplied(s.master.http, s.master.recent, farm, slot);
    forall fd | fd in s.conns ensures u.conns[fd].node in u.backups && FarmCleared(farm, slot, ViewOf(s, fd, slot), ViewOf(u, fd, slot)) {
      Sent(s, p, fd, slot);
      ClearIsDone(farm, slot, ViewOf(s, fd, slot), ViewOf(u, fd, slot));
    }
  }

  /** A session's event is applied to the master and, if backups are counted, reaches every connected one. */
  lemma SessionEventMeans(s: System, a: HttpAction, slot: Slot)
    requires Linked(s.conns, s.backups) && OneService(s.master.http) && s.httpQueue != [] && s.httpQueue[0] == HttpEvent.Session(a)
    ensures var u := HttpPopped(s);
            && u.httpQueue == s.httpQueue[1..] && u.recentQueue == s.recentQueue && u.conns.Keys == s.conns.Keys && u.backups == s.backups
            && SessionDone(a, slot, At(s.master, slot), At(u.master, slot))
            && (s.count <= 0 ==> u.conns == s.conns)
            && forall fd | fd in s.conns && s.count > 0 ::
                 u.conns[fd].node in u.backups && SessionDone(a, slot, ViewOf(s, fd, slot), ViewOf(u, fd, slot))
  {
    hide OneService, At, InView, Broadcast, SessionDone, Apply;
    SessionApplied(s.master, a, slot);
    var u := HttpPopped(s);
    forall fd | fd in s.conns && s.count > 0
      ensures u.conns[fd].node in u.backups && SessionDone(a, slot, ViewOf(s, fd, slot), ViewOf(u, fd, slot))
    {
      Sent(s, Http(a), fd, slot);
    }
  }

  /** A recent action likewise. */
  lemma RecentActionMeans(s: System, a: RecentAction, slot: Slot)
    requires Linked(s.conns, s.backups) && s.draining && s.recentQueue != [] && s.recentQueue[0] == a && Enabled(s, PopRecent)
    ensures var u := Do(s, PopRecent);
            && u.recentQueue == s.recentQueue[1..] && u.httpQueue == s.httpQueue && u.conns.Keys == s.conns.Keys && u.backups == s.backups
            && RecentDone(a, slot, At(s.master, slot), At(u.master, slot))
            && (s.count <= 0 ==> u.conns == s.conns)
            && forall fd | fd in s.conns && s.count > 0 ::
                 u.conns[fd].node in u.backups && RecentDone(a, slot, ViewOf(s, fd, slot), ViewOf(u, fd, slot))
  {
    hide At, InView, Broadcast, RecentDone, Apply;
    RecentApplied(s.master, a, slot);
    var u := Do(s, PopRecent);
    forall fd | fd in s.conns && s.count > 0
      ensures u.conns[fd].node in u.backups && RecentDone(a, slot, ViewOf(s, fd, slot), ViewOf(u, fd, slot))
    {
      Sent(s, Recent(a), fd, slot);
    }
  }
}
