// What a node holds, and what one packet does to it.
module Replica {
  import opened Seqs
  import opened XtRecentProc
  import opened Messages
  import opened Wire

  type RecentData = map<string, map<string, UserEntry>>
  type Services = map<nat, map<string, Session>>
  type HttpData = map<string, map<nat, Services>>

  /** recent_data and http_session_data. */
  datatype Data = Data(recent: RecentData, http: HttpData)

  // ---------------------------------------------------------------------------
  // Applying an action

  function ApplyRecent(d: RecentData, a: RecentAction): RecentData {
    match a
    case AddUpdEntry(t, e) => d[t := (if t in d then d[t] else map[])[e.srcIp := e]]
    case DeleteEntry(t, ip) => if t in d then d[t := d[t] - {ip}] else d
    case FlushTable(t) => d[t := map[]]
    case _ => d
  }

  function FarmOf(d: HttpData, farm: string): map<nat, Services> {
    if farm in d then d[farm] else map[]
  }

  function SessionOf(a: HttpAction): Session {
    Session(a.backend, a.content, a.lastAcc)
  }

  /** The services of the action's listener: a service that is not there yet replaces them all. */
  function ServicesFor(farm: map<nat, Services>, a: HttpAction): (r: Services)
    ensures a.service in r
  {
    if a.listener in farm && a.service in farm[a.listener] then farm[a.listener] else map[a.service := map[]]
  }

  function ApplyHttp(d: HttpData, a: HttpAction): HttpData {
    var farm := FarmOf(d, a.farm);
    if a.code == CLEAR_DATA then d[a.farm := map[]]
    else if a.code == SESS_ADD || a.code == SESS_UPDATE then
      var services := ServicesFor(farm, a);
      d[a.farm := farm[a.listener := services[a.service := services[a.service][a.key := SessionOf(a)]]]]
    else if a.code == SESS_DELETE then
      if a.listener in farm && a.service in farm[a.listener] then
        var services := farm[a.listener];
        d[a.farm := farm[a.listener := services[a.service := services[a.service] - {a.key}]]]
      else d[a.farm := farm]
    else d
  }

  /** A packet as sync_backup::run dispatches it. */
  function Apply(d: Data, p: Packet): Data {
    match p
    case Recent(a) => d.(recent := ApplyRecent(d.recent, a))
    case Http(a) => d.(http := ApplyHttp(d.http, a))
    case Control(_) => d
  }

  function ApplyAll(d: Data, ps: seq<Packet>): Data
    decreases ps
  {
    if ps == [] then d else ApplyAll(Apply(d, ps[0]), ps[1..])
  }

  // ---------------------------------------------------------------------------
  // The flattened view: empty tables, farms, listeners and services do not show

  datatype Slot = RecentSlot(table: string, ip: string) | HttpSlot(farm: string, listener: nat, service: nat, key: string)

  datatype Value = EntryValue(entry: UserEntry) | SessionValue(session: Session)

  function At(d: Data, s: Slot): Option<Value> {
    match s
    case RecentSlot(t, ip) =>
      if t in d.recent && ip in d.recent[t] then Some(EntryValue(d.recent[t][ip])) else None
    case HttpSlot(f, l, v, k) =>
      if f in d.http && l in d.http[f] && v in d.http[f][l] && k in d.http[f][l][v] then Some(SessionValue(d.http[f][l][v][k]))
      else None
  }

  /** What a packet does to a slot. */
  datatype Change = Keep | Becomes(value: Option<Value>)

  function Changed(c: Change, v: Option<Value>): Option<Value> {
    if c.Keep? then v else c.value
  }

  function RecentEffect(a: RecentAction, t: string, ip: string): Change {
    match a
    case AddUpdEntry(table, e) => if table == t && e.srcIp == ip then Becomes(Some(EntryValue(e))) else Keep
    case DeleteEntry(table, addr) => if table == t && addr == ip then Becomes(None) else Keep
    case FlushTable(table) => if table == t then Becomes(None) else Keep
    case _ => Keep
  }

  function HttpEffect(a: HttpAction, f: string, l: nat, v: nat, k: string): Change {
    if a.farm != f then Keep
    else if a.code == CLEAR_DATA then Becomes(None)
    else if a.listener != l then Keep
    else if a.code == SESS_ADD || a.code == SESS_UPDATE then
      if a.service != v then Becomes(None) else if a.key == k then Becomes(Some(SessionValue(SessionOf(a)))) else Keep
    else if a.code == SESS_DELETE && a.service == v && a.key == k then Becomes(None)
    else Keep
  }

  function Effect(p: Packet, s: Slot): Change {
    match (p, s)
    case (Recent(a), RecentSlot(t, ip)) => RecentEffect(a, t, ip)
    case (Http(a), HttpSlot(f, l, v, k)) => HttpEffect(a, f, l, v, k)
    case _ => Keep
  }

  /** The value of a slot after a sequence of packets. */
  function Final(v: Option<Value>, ps: seq<Packet>, s: Slot): Option<Value>
    decreases ps
  {
    if ps == [] then v else Final(Changed(Effect(ps[0], s), v), ps[1..], s)
  }

  /** At most one service for each listener of each farm. */
  ghost predicate OneService(d: HttpData) {
    forall f, l, v, w :: f in d && l in d[f] && v in d[f][l] && w in d[f][l] ==> v == w
  }

  lemma ApplyRecentEffect(d: Data, a: RecentAction, t: string, ip: string)
    ensures At(d.(recent := ApplyRecent(d.recent, a)), RecentSlot(t, ip)) == Changed(RecentEffect(a, t, ip), At(d, RecentSlot(t, ip)))
  {
  }

  lemma ApplyKeepsOneService(d: HttpData, a: HttpAction)
    requires OneService(d)
    ensures OneService(ApplyHttp(d, a))
  {
  }

  lemma ApplyHttpEffect(d: Data, a: HttpAction, f: string, l: nat, v: nat, k: string)
    requires OneService(d.http)
    ensures At(d.(http := ApplyHttp(d.http, a)), HttpSlot(f, l, v, k)) == Changed(HttpEffect(a, f, l, v, k), At(d, HttpSlot(f, l, v, k)))
  {
  }

  /** A packet does the same to a slot in every state with one service for each listener. */
  lemma ApplyEffect(d: Data, p: Packet, s: Slot)
    requires OneService(d.http)
    ensures OneService(Apply(d, p).http)
    ensures At(Apply(d, p), s) == Changed(Effect(p, s), At(d, s))
  {
    match (p, s)
    case (Recent(a), RecentSlot(t, ip)) => ApplyRecentEffect(d, a, t, ip);
    case (Http(a), HttpSlot(f, l, v, k)) => ApplyHttpEffect(d, a, f, l, v, k); ApplyKeepsOneService(d.http, a);
    case (Http(a), _) => ApplyKeepsOneService(d.http, a);
    case _ =>
  }

  lemma {:induction false} ApplyAllFinal(d: Data, ps: seq<Packet>, s: Slot)
    requires OneService(d.http)
    ensures OneService(ApplyAll(d, ps).http)
    ensures At(ApplyAll(d, ps), s) == Final(At(d, s), ps, s)
    decreases ps
  {
    if ps != [] {
      ApplyEffect(d, ps[0], s);
      ApplyAllFinal(Apply(d, ps[0]), ps[1..], s);
    }
  }

  lemma {:induction false} FinalConcat(v: Option<Value>, a: seq<Packet>, b: seq<Packet>, s: Slot)
    ensures Final(v, a + b, s) == Final(Final(v, a, s), b, s)
    decreases a
  {
    if a == [] {
      assert a + b == b;
    } else {
      assert (a + b)[1..] == a[1..] + b;
      FinalConcat(Changed(Effect(a[0], s), v), a[1..], b, s);
    }
  }

  lemma FinalOne(v: Option<Value>, p: Packet, s: Slot)
    ensures Final(v, [p], s) == Changed(Effect(p, s), v)
  {
    assert [p][1..] == [];
  }

  ghost predicate Touched(ps: seq<Packet>, s: Slot) {
    exists i :: 0 <= i < |ps| && Effect(ps[i], s) != Keep
  }

  /** Packets that agree on what a slot becomes, in whatever order. */
  lemma {:induction false} FinalUniform(v: Option<Value>, ps: seq<Packet>, s: Slot, x: Option<Value>)
    requires forall i :: 0 <= i < |ps| ==> Effect(ps[i], s) in {Keep, Becomes(x)}
    ensures Final(v, ps, s) == if Touched(ps, s) then x else v
    decreases ps
  {
    if ps != [] {
      var (w, rest) := (Changed(Effect(ps[0], s), v), ps[1..]);
      FinalUniform(w, rest, s, x);
      if Touched(rest, s) {
        var i :| 0 <= i < |rest| && Effect(rest[i], s) != Keep;
        assert ps[i + 1] == rest[i];
      } else if Effect(ps[0], s) == Keep {
        forall i | 0 <= i < |ps| ensures Effect(ps[i], s) == Keep {
          if i > 0 {
            assert ps[i] == rest[i - 1];
          }
        }
      }
    }
  }
}
