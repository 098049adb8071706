// The listener of the kernel's tables: it compares each table with its last snapshot and queues the
// differences as actions.
module XtRecentSync {
  import Division
  import opened Jiffies
  import opened Seqs
  import opened XtRecentProc
  import opened Messages
  import opened Replica
  import R = Ring

  type Rows = map<string, UserEntry>

  // ---------------------------------------------------------------------------
  // Reading a table

  /** get_table on the lines of a table's file: rows without an address are skipped, a later row of an
      address replaces an earlier one. None is an exception of parse_file_row. */
  function TableOf(lines: seq<string>): Option<Rows> {
    if lines == [] then Some(map[])
    else
      var last := |lines| - 1;
      match (TableOf(lines[..last]), ParseRow(lines[last]))
      case (Some(m), Some(e)) => Some(if e.srcIp == "" then m else m[e.srcIp := e])
      case _ => None
  }

  method GetTable(lines: seq<string>) returns (r: Option<Rows>)
    ensures r == TableOf(lines)
  {
    hide ParseRow;
    var m: Rows := map[];
    for i := 0 to |lines|
      invariant TableOf(lines[..i]) == Some(m)
    {
      assert lines[..i + 1][..i] == lines[..i];
      match ParseRow(lines[i])
      case None =>
        TableStopsAt(lines, i);
        return None;
      case Some(e) =>
        if e.srcIp != "" {
          m := m[e.srcIp := e];
        }
    }
    assert lines[..|lines|] == lines;
    r := Some(m);
  }

  lemma {:induction false} TableStopsAt(lines: seq<string>, i: nat)
    requires i < |lines| && ParseRow(lines[i]) == None
    ensures TableOf(lines) == None
  {
    if i < |lines| - 1 {
      TableStopsAt(lines[..|lines| - 1], i);
    }
  }

  ghost predicate WellKeyed(m: Rows) {
    forall ip | ip in m :: m[ip].srcIp == ip
  }

  lemma {:induction false} TableIsKeyed(lines: seq<string>)
    ensures TableOf(lines).Some? ==> WellKeyed(TableOf(lines).value)
  {
    if lines != [] {
      TableIsKeyed(lines[..|lines| - 1]);
    }
  }

  // ---------------------------------------------------------------------------
  // The difference of two snapshots

  /** A new address, or one whose index is another than at the last poll. */
  predicate Fresh(was: Rows, now: Rows, ip: string) {
    ip in now && (ip !in was || was[ip].index != now[ip].index)
  }

  predicate Gone(was: Rows, now: Rows, ip: string) {
    ip in was && ip !in now
  }

  function TargetIp(a: RecentAction): string {
    match a
    case AddUpdEntry(_, e) => e.srcIp
    case DeleteEntry(_, ip) => ip
    case _ => ""
  }

  /** The action the comparison queues for an address. */
  predicate ActionFor(name: string, was: Rows, now: Rows, a: RecentAction) {
    match a
    case AddUpdEntry(t, e) => t == name && Fresh(was, now, e.srcIp) && e == now[e.srcIp]
    case DeleteEntry(t, ip) => t == name && Gone(was, now, ip)
    case _ => false
  }

  /** One action for each address that is new, has another index, or is gone, and no others. */
  ghost predicate IsDiff(name: string, was: Rows, now: Rows, actions: seq<RecentAction>) {
    && (forall i :: 0 <= i < |actions| ==> ActionFor(name, was, now, actions[i]))
    && (forall i, j :: 0 <= i < j < |actions| ==> TargetIp(actions[i]) != TargetIp(actions[j]))
    && (forall ip :: Fresh(was, now, ip) || Gone(was, now, ip) ==> exists i :: 0 <= i < |actions| && TargetIp(actions[i]) == ip)
  }

  /** The first loop: an action for each new or changed address that is not left. */
  ghost predicate FreshDone(name: string, was: Rows, now: Rows, actions: seq<RecentAction>, left: set<string>) {
    && left <= now.Keys
    && (forall i :: 0 <= i < |actions| ==> ActionFor(name, was, now, actions[i]) && TargetIp(actions[i]) in now.Keys - left)
    && (forall i, j :: 0 <= i < j < |actions| ==> TargetIp(actions[i]) != TargetIp(actions[j]))
    && forall ip :: Fresh(was, now, ip) && ip !in left ==> exists i :: 0 <= i < |actions| && TargetIp(actions[i]) == ip
  }

  /** The second loop: one for each address that is gone as well. */
  ghost predicate GoneDone(name: string, was: Rows, now: Rows, actions: seq<RecentAction>, left: set<string>) {
    && left <= was.Keys
    && (forall i :: 0 <= i < |actions| ==> ActionFor(name, was, now, actions[i]) && TargetIp(actions[i]) !in left - now.Keys)
    && (forall i, j :: 0 <= i < j < |actions| ==> TargetIp(actions[i]) != TargetIp(actions[j]))
    && forall ip :: Fresh(was, now, ip) || (Gone(was, now, ip) && ip !in left) ==>
         exists i :: 0 <= i < |actions| && TargetIp(actions[i]) == ip
  }

  lemma FreshNext(name: string, was: Rows, now: Rows, actions: seq<RecentAction>, left: set<string>, ip: string)
    requires FreshDone(name, was, now, actions, left) && ip in left && now[ip].srcIp == ip
    ensures FreshDone(name, was, now, if Fresh(was, now, ip) then actions + [AddUpdEntry(name, now[ip])] else actions, left - {ip})
  {
    var more := actions + [AddUpdEntry(name, now[ip])];
    assert more[|actions|] == AddUpdEntry(name, now[ip]) && forall i :: 0 <= i < |actions| ==> more[i] == actions[i];
  }

  lemma GoneNext(name: string, was: Rows, now: Rows, actions: seq<RecentAction>, left: set<string>, ip: string)
    requires GoneDone(name, was, now, actions, left) && ip in left
    ensures GoneDone(name, was, now, if Gone(was, now, ip) then actions + [DeleteEntry(name, ip)] else actions, left - {ip})
  {
    var more := actions + [DeleteEntry(name, ip)];
    assert more[|actions|] == DeleteEntry(name, ip) && forall i :: 0 <= i < |actions| ==> more[i] == actions[i];
  }

  lemma QueuedBehind(queue: seq<RecentAction>, actions: seq<RecentAction>)
    ensures (queue + actions)[..|queue|] == queue && (queue + actions)[|queue|..] == actions
  {
  }

  lemma DoneIsDiff(name: string, was: Rows, now: Rows, actions: seq<RecentAction>)
    ensures FreshDone(name, was, now, [], now.Keys)
    ensures FreshDone(name, was, now, actions, {}) ==> GoneDone(name, was, now, actions, was.Keys)
    ensures GoneDone(name, was, now, actions, {}) ==> IsDiff(name, was, now, actions)
  {
  }

  class Listener {
    var recentData: map<string, Rows>
    var inputData: seq<RecentAction>

    constructor ()
      ensures recentData == map[] && inputData == []
    {
      recentData := map[];
      inputData := [];
    }

    function Snapshot(name: string): Rows
      reads this
    {
      if name in recentData then recentData[name] else map[]
    }

    /** get_table_updates on the table just read. */
    method GetTableUpdates(name: string, now: Rows)
      requires WellKeyed(now)
      modifies this`inputData
      ensures |inputData| >= |old(inputData)| && inputData[..|old(inputData)|] == old(inputData)
      ensures IsDiff(name, Snapshot(name), now, inputData[|old(inputData)|..])
    {
      hide FreshDone, GoneDone, IsDiff;
      var was := Snapshot(name);
      var actions: seq<RecentAction> := [];
      var left := now.Keys;
      DoneIsDiff(name, was, now, actions);
      while left != {}
        invariant left <= now.Keys && FreshDone(name, was, now, actions, left) && inputData == old(inputData)
        decreases |left|
      {
        var ip :| ip in left;
        FreshNext(name, was, now, actions, left, ip);
        left := left - {ip};
        if ip !in was || was[ip].index != now[ip].index {
          actions := actions + [AddUpdEntry(name, now[ip])];
        }
      }
      DoneIsDiff(name, was, now, actions);
      left := was.Keys;
      while left != {}
        invariant left <= was.Keys && GoneDone(name, was, now, actions, left) && inputData == old(inputData)
        decreases |left|
      {
        var ip :| ip in left;
        GoneNext(name, was, now, actions, left, ip);
        left := left - {ip};
        if ip !in now {
          actions := actions + [DeleteEntry(name, ip)];
        }
      }
      DoneIsDiff(name, was, now, actions);
      QueuedBehind(inputData, actions);
      inputData := inputData + actions;
    }

    /** One pass of proc_task over a table. */
    method Poll(name: string, now: Rows)
      requires WellKeyed(now)
      modifies this
      ensures recentData == old(recentData)[name := now]
      ensures Snapshot(name) == now && forall other :: other != name ==> Snapshot(other) == old(Snapshot(other))
      ensures |inputData| >= |old(inputData)| && inputData[..|old(inputData)|] == old(inputData)
      ensures IsDiff(name, old(Snapshot(name)), now, inputData[|old(inputData)|..])
    {
      GetTableUpdates(name, now);
      recentData := recentData[name := now];
    }
  }

  // ---------------------------------------------------------------------------
  // What the queued actions amount to

  function AsPackets(actions: seq<RecentAction>): (r: seq<Packet>)
    ensures |r| == |actions| && forall i :: 0 <= i < |r| ==> r[i] == Recent(actions[i])
  {
    seq(|actions|, i requires 0 <= i < |actions| => Recent(actions[i]))
  }

  function RowAt(m: Rows, ip: string): Option<Value> {
    if ip in m then Some(EntryValue(m[ip])) else None
  }

  /** Entries that show the same index as before are the same as before. */
  ghost predicate Faithful(was: Rows, now: Rows) {
    forall ip :: ip in was && ip in now && was[ip].index == now[ip].index ==> was[ip] == now[ip]
  }

  lemma DiffEffects(name: string, was: Rows, now: Rows, actions: seq<RecentAction>, ip: string)
    requires IsDiff(name, was, now, actions)
    ensures forall i :: 0 <= i < |actions| ==>
              Effect(AsPackets(actions)[i], RecentSlot(name, ip)) in {Keep, Becomes(RowAt(now, ip))}
    ensures (Fresh(was, now, ip) || Gone(was, now, ip)) <==> Touched(AsPackets(actions), RecentSlot(name, ip))
  {
    var (ps, s) := (AsPackets(actions), RecentSlot(name, ip));
    forall i | 0 <= i < |actions|
      ensures Effect(ps[i], s) == if TargetIp(actions[i]) == ip then Becomes(RowAt(now, ip)) else Keep
    {
      assert ActionFor(name, was, now, actions[i]);
    }
    if Fresh(was, now, ip) || Gone(was, now, ip) {
      var i :| 0 <= i < |actions| && TargetIp(actions[i]) == ip;
      assert Effect(ps[i], s) != Keep;
    }
  }

  /** Replaying a poll's actions sets every address the comparison notices to its new row, drops those that
      are gone, and leaves everything else alone. */
  lemma DiffReplay(name: string, was: Rows, now: Rows, actions: seq<RecentAction>, v: Option<Value>, s: Slot)
    requires IsDiff(name, was, now, actions)
    ensures Final(v, AsPackets(actions), s) ==
            if s.RecentSlot? && s.table == name && (Fresh(was, now, s.ip) || Gone(was, now, s.ip)) then RowAt(now, s.ip) else v
  {
    var ps := AsPackets(actions);
    if s.RecentSlot? && s.table == name {
      DiffEffects(name, was, now, actions, s.ip);
      FinalUniform(v, ps, s, RowAt(now, s.ip));
    } else {
      forall i | 0 <= i < |ps| ensures Effect(ps[i], s) == Keep {
        assert ActionFor(name, was, now, actions[i]);
      }
      FinalUniform(v, ps, s, v);
    }
  }

  /** Replayed on the old snapshot, a poll's actions give the new snapshot's addresses and indices. */
  lemma DiffKeepsKeys(name: string, was: Rows, now: Rows, actions: seq<RecentAction>, ip: string)
    requires IsDiff(name, was, now, actions)
    ensures var r := Final(RowAt(was, ip), AsPackets(actions), RecentSlot(name, ip));
            && (r.Some? <==> ip in now)
            && (r.Some? ==> r.value.EntryValue? && r.value.entry.index == now[ip].index)
  {
    DiffReplay(name, was, now, actions, RowAt(was, ip), RecentSlot(name, ip));
  }

  /** They give the new snapshot itself exactly if no entry changed without changing its index. */
  lemma DiffLossless(name: string, was: Rows, now: Rows, actions: seq<RecentAction>)
    requires IsDiff(name, was, now, actions)
    ensures (forall ip :: Final(RowAt(was, ip), AsPackets(actions), RecentSlot(name, ip)) == RowAt(now, ip)) <==> Faithful(was, now)
  {
    forall ip ensures Final(RowAt(was, ip), AsPackets(actions), RecentSlot(name, ip)) == RowAt(now, ip)
                      <==> (ip in was && ip in now && was[ip].index == now[ip].index ==> was[ip] == now[ip])
    {
      DiffReplay(name, was, now, actions, RowAt(was, ip), RecentSlot(name, ip));
    }
    if forall ip :: Final(RowAt(was, ip), AsPackets(actions), RecentSlot(name, ip)) == RowAt(now, ip) {
      forall ip | ip in was && ip in now && was[ip].index == now[ip].index ensures was[ip] == now[ip] {
        assert Final(RowAt(was, ip), AsPackets(actions), RecentSlot(name, ip)) == RowAt(now, ip);
      }
    }
  }

  // ---------------------------------------------------------------------------
  // Which touches of an entry the index shows

  /** The row of an entry, as ParseRow reads it back. */
  function RowOf(ip: string, ttl: nat, r: R.Ring): UserEntry
    requires r.nstamps <= |r.slots|
  {
    UserEntry(ip, ttl, r.index, NonZero(R.Visible(r)))
  }

  /** After d more stamps the index of an n-slot ring is the same exactly if n divides d. */
  lemma IndexShows(r: R.Ring, s: R.Ring, h: seq<Stamp>, more: seq<Stamp>, n: nat)
    requires R.Holds(r, h, n) && R.Holds(s, h + more, n)
    ensures r.index == s.index <==> |more| % n == 0
  {
    var (k, d) := (|h| - 1, |more|);
    IndexAfter(r, h, n);
    IndexAfter(s, h + more, n);
    hide R.Holds;
    SameResidue(k, d, n);
    SameIndex(k % n, (k + d) % n, n);
  }

  lemma IndexAfter(r: R.Ring, h: seq<Stamp>, n: nat)
    requires R.Holds(r, h, n)
    ensures 0 < n <= 256 && h != [] && r.index == ((|h| - 1) % n + 1) % 256
  {
  }

  lemma SameIndex(a: nat, b: nat, n: nat)
    requires a < n <= 256 && b < n
    ensures (a + 1) % 256 == (b + 1) % 256 <==> a == b
  {
  }

  lemma SameResidue(k: nat, d: nat, n: nat)
    requires n > 0
    ensures k % n == (k + d) % n <==> d % n == 0
  {
    if k % n == (k + d) % n {
      Division.Unique(d, n, (k + d) / n - k / n, 0);
    }
    if d % n == 0 {
      Division.Unique(k + d, n, k / n + d / n, k % n);
    }
  }

  /** An entry that stayed in place and was touched fewer times than its ring has slots is never missed; only a
      touch changes its ttl. */
  lemma FewTouchesAreFaithful(ip: string, ttl: nat, ttl': nat, r: R.Ring, s: R.Ring, h: seq<Stamp>, more: seq<Stamp>, n: nat)
    requires R.Holds(r, h, n) && R.Holds(s, h + more, n) && |more| < n && (more == [] ==> ttl' == ttl)
    ensures RowOf(ip, ttl, r).index == RowOf(ip, ttl', s).index ==> RowOf(ip, ttl, r) == RowOf(ip, ttl', s)
  {
    IndexShows(r, s, h, more, n);
    if r.index == s.index {
      Division.Unique(|more|, n, 0, |more|);
      assert h + more == h;
      R.SameHistorySameVisible(r, s, h, n);
    }
  }

  lemma TurnedOnce()
    ensures R.Holds(R.Ring([3, 4], 2, 2), [3, 4], 2) && R.Holds(R.Ring([5, 6], 2, 2), [3, 4, 5, 6], 2)
  {
  }

  /** A whole turn of the ring is missed: the row changed, the index did not. */
  lemma WholeTurnIsMissed()
    ensures exists r: R.Ring, s: R.Ring, h: seq<Stamp>, more: seq<Stamp> ::
              R.Holds(r, h, 2) && R.Holds(s, h + more, 2) && |more| == 2
              && RowOf("", 0, r).index == RowOf("", 0, s).index && RowOf("", 0, r) != RowOf("", 0, s)
  {
    var r, s := R.Ring([3, 4], 2, 2), R.Ring([5, 6], 2, 2);
    var h: seq<Stamp>, more: seq<Stamp> := [3, 4], [5, 6];
    TurnedOnce();
    hide R.Holds, NonZero;
    assert R.Visible(r) == [3, 4] && R.Visible(s) == [5, 6];
    NonZeroKeeps([3, 4]);
    NonZeroKeeps([5, 6]);
    assert h + more == [3, 4, 5, 6];
    assert R.Holds(r, h, 2) && R.Holds(s, h + more, 2);
  }
}
