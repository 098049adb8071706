// From the kernel's tables to the snapshots: what happens to an address between two polls decides
// whether the comparison of the indices sees it.
module Polls {
  import opened Seqs
  import opened Jiffies
  import opened Text
  import opened TableModel
  import opened MatchModel
  import opened LogModel
  import opened ProcFile
  import opened XtRecentProc
  import S = XtRecentSync
  import D = Replica
  import N = Protocol
  import T = Takeover
  import W = WriteBack
  import R = Ring

  // ---------------------------------------------------------------------------
  // Reading a table

  /** e is what is read of the entry at p. */
  ghost predicate ReadAt<P>(t: Table<P>, p: P, e: UserEntry) {
    && p in t.store && t.store[p].key.family == IPv4 && IsIPv4(t.store[p].key.addr)
    && t.store[p].ring.nstamps <= |t.store[p].ring.slots| && e == T.RowOf(t.store[p])
  }

  /** Every row of m was read of an entry of t. */
  ghost predicate ReadFrom<P(!new)>(m: S.Rows, t: Table<P>) {
    S.WellKeyed(m) && forall ip | ip in m :: exists p :: ReadAt(t, p, m[ip])
  }

  /** The line that the proc file shows for an entry. */
  ghost predicate LineOf<P>(t: Table<P>, p: P, line: string)
    requires T.Shaped(t)
  {
    p in t.store && t.store[p].key.family == IPv4 && IsIPv4(t.store[p].key.addr) && line == Row(t.store[p], t.mask)
  }

  ghost predicate Listed<P(!new)>(t: Table<P>, line: string)
    requires T.Shaped(t)
  {
    exists p :: LineOf(t, p, line)
  }

  lemma LineIsRead<P>(t: Table<P>, p: P, line: string)
    requires T.Shaped(t) && LineOf(t, p, line)
    ensures ParseRow(line).Some? && ReadAt(t, p, ParseRow(line).value) && ParseRow(line).value.srcIp != ""
  {
    RowRoundTrip(t.store[p], t.mask);
    DottedChars(t.store[p].key.addr);
    hide ParseRow, Row, Dotted, NonZero;
  }

  /** The file of a table, its lines in any order, is read without an exception and gives rows of its entries. */
  lemma {:induction false} FileIsRead<P(!new)>(t: Table<P>, lines: seq<string>)
    requires T.Shaped(t) && forall i :: 0 <= i < |lines| ==> Listed(t, lines[i])
    ensures S.TableOf(lines).Some? && ReadFrom(S.TableOf(lines).value, t)
  {
    hide LineOf, ReadAt, ParseRow;
    if lines != [] {
      var last := |lines| - 1;
      FileIsRead(t, lines[..last]);
      assert Listed(t, lines[last]);
      var p :| LineOf(t, p, lines[last]);
      LineIsRead(t, p, lines[last]);
      S.TableIsKeyed(lines);
    }
  }

  /** Read in full, the file gives a row for each entry, whatever the order of the lines. */
  lemma {:induction false} FileIsWhole<P(!new)>(t: Table<P>, lines: seq<string>, p: P, i: nat)
    requires T.Shaped(t) && forall i :: 0 <= i < |lines| ==> Listed(t, lines[i])
    requires i < |lines| && LineOf(t, p, lines[i]) && SoleHolder(t, p)
    ensures S.TableOf(lines).Some?
    ensures var m := S.TableOf(lines).value; Dotted(t.store[p].key.addr) in m && ReadAt(t, p, m[Dotted(t.store[p].key.addr)])
  {
    hide LineOf, ReadAt, ParseRow, T.Shaped, Dotted;
    var last := |lines| - 1;
    FileIsRead(t, lines);
    FileIsRead(t, lines[..last]);
    assert Listed(t, lines[last]);
    var q :| LineOf(t, q, lines[last]);
    LineIsRead(t, q, lines[last]);
    ReadIsOf(t, q, ParseRow(lines[last]).value);
    if i == last {
      LineIsRead(t, p, lines[last]);
      ReadIsOf(t, p, ParseRow(lines[last]).value);
    } else {
      FileIsWhole(t, lines[..last], p, i);
      if ParseRow(lines[last]).value.srcIp == Dotted(t.store[p].key.addr) {
        SameAddress(t, p, q);
      }
    }
  }

  /** No other entry has its address. */
  ghost predicate SoleHolder<P(!new)>(t: Table<P>, p: P) {
    p in t.store && t.store[p].key.family == IPv4 && IsIPv4(t.store[p].key.addr)
    && forall q | q in t.store && t.store[q].key == t.store[p].key :: q == p
  }

  lemma ReadIsOf<P>(t: Table<P>, p: P, e: UserEntry)
    requires ReadAt(t, p, e)
    ensures p in t.store && t.store[p].key.family == IPv4 && IsIPv4(t.store[p].key.addr) && e.srcIp == Dotted(t.store[p].key.addr)
  {
  }

  lemma SameAddress<P(!new)>(t: Table<P>, p: P, q: P)
    requires SoleHolder(t, p) && q in t.store && t.store[q].key.family == IPv4 && IsIPv4(t.store[q].key.addr)
    requires Dotted(t.store[q].key.addr) == Dotted(t.store[p].key.addr)
    ensures q == p
  {
    ParseOfDotted(t.store[p].key.addr);
    ParseOfDotted(t.store[q].key.addr);
  }

  ghost predicate AllRestorable<P>(t: Table<P>, maskB: nat)
    requires T.Shaped(t)
  {
    forall p | p in t.store :: T.Restorable(t.store[p], t.mask, maskB)
  }

  /** A line for each entry, and no others. */
  ghost predicate FileOf<P(!new)>(t: Table<P>, lines: seq<string>)
    requires T.Shaped(t)
  {
    && (forall i :: 0 <= i < |lines| ==> Listed(t, lines[i]))
    && forall p | p in t.store :: exists i :: 0 <= i < |lines| && LineOf(t, p, lines[i])
  }

  /** What is read of the whole file of a table that can be restored is a poll that write-back can use. */
  lemma FileIsPolled<P(!new)>(t: Table<P>, log: Log, cfg: Config, lines: seq<string>, maskB: nat)
    requires Simulates(t, log, cfg) && T.Shaped(t) && AllRestorable(t, maskB) && FileOf(t, lines)
    ensures S.TableOf(lines).Some? && T.Polled(S.TableOf(lines).value, t, log, cfg, maskB)
  {
    hide LineOf, ReadAt, ParseRow, T.Shaped, Dotted, Simulates, T.Restorable, Listed, T.Shows;
    FileIsRead(t, lines);
    var m := S.TableOf(lines).value;
    forall p | p in t.store ensures exists ip :: ip in m && T.Shows(t, p, maskB, m[ip]) {
      SoleInStep(t, log, cfg, p, maskB);
      var i :| 0 <= i < |lines| && LineOf(t, p, lines[i]);
      FileIsWhole(t, lines, p, i);
      var ip := Dotted(t.store[p].key.addr);
      ReadShows(t, p, maskB, m[ip]);
    }
    forall ip | ip in m ensures exists p :: T.Shows(t, p, maskB, m[ip]) {
      var p :| ReadAt(t, p, m[ip]);
      ReadIsOf(t, p, m[ip]);
      ReadShows(t, p, maskB, m[ip]);
    }
  }

  lemma SoleInStep<P(!new)>(t: Table<P>, log: Log, cfg: Config, p: P, maskB: nat)
    requires Simulates(t, log, cfg) && T.Shaped(t) && p in t.store && T.Restorable(t.store[p], t.mask, maskB)
    ensures SoleHolder(t, p)
  {
    UniqueKeys(t, log, p);
  }

  lemma ReadShows<P>(t: Table<P>, p: P, maskB: nat, e: UserEntry)
    requires T.Shaped(t) && ReadAt(t, p, e) && T.Restorable(t.store[p], t.mask, maskB)
    ensures T.Shows(t, p, maskB, e)
  {
    T.RowIsRead(t.store[p], t.mask, maskB);
    hide ParseRow, Row;
  }

  /** A poll that write-back can use is one. */
  lemma PolledIsRead<P(!new)>(m: S.Rows, t: Table<P>, maskB: nat)
    requires S.WellKeyed(m) && T.Shaped(t) && T.PolledFrom(m, t, maskB)
    ensures ReadFrom(m, t)
  {
    hide T.Shows, ReadAt;
    forall ip | ip in m ensures exists p :: ReadAt(t, p, m[ip]) {
      var p :| T.Shows(t, p, maskB, m[ip]);
      ShowsIsRead(t, p, maskB, m[ip]);
    }
  }

  lemma ShowsIsRead<P>(t: Table<P>, p: P, maskB: nat, e: UserEntry)
    requires T.Shaped(t) && T.Shows(t, p, maskB, e)
    ensures ReadAt(t, p, e)
  {
    T.ShownRow(t, p, maskB, e);
    hide ParseRow, Row;
  }

  // ---------------------------------------------------------------------------
  // Two polls of a table

  /** A kernel table and its history. */
  datatype Kernel<P> = Kernel(table: Table<P>, log: Log, cfg: Config)

  ghost predicate Sound<P>(k: Kernel<P>) {
    Simulates(k.table, k.log, k.cfg)
  }

  /** Between the two, every address that is in both was stamped fewer times than its ring has slots. */
  ghost predicate FewTouches<P>(a: Kernel<P>, b: Kernel<P>) {
    forall key | key in a.log.recs && key in b.log.recs ::
      a.table.mask == b.table.mask && Extends(a.log.recs[key], b.log.recs[key], a.table.mask + 1)
  }

  /** One address of two polls. */
  lemma SameRow<P>(a: Kernel<P>, b: Kernel<P>, p: P, q: P, e: UserEntry, f: UserEntry)
    requires Sound(a) && Sound(b) && FewTouches(a, b) && ReadAt(a.table, p, e) && ReadAt(b.table, q, f)
    requires e.srcIp == f.srcIp && e.index == f.index
    ensures e == f
  {
    var (x, y) := (a.table.store[p], b.table.store[q]);
    ParseOfDotted(x.key.addr);
    ParseOfDotted(y.key.addr);
    assert x.key == y.key;
    T.KeyOfEntry(a.table, a.log, a.cfg, p);
    T.KeyOfEntry(b.table, b.log, b.cfg, q);
    SameEntry(x, y, a.log.recs[x.key], b.log.recs[x.key], a.table.mask);
    hide S.RowOf, Dotted;
  }

  lemma MoreStamps(a: seq<nat>, b: seq<nat>)
    requires |a| <= |b| && b[..|a|] == a
    ensures R.Stamps(b) == R.Stamps(a) + R.Stamps(b[|a|..])
    ensures R.Stamps(b[|a|..]) == [] ==> |a| == |b|
  {
    assert b == a + b[|a|..];
  }

  lemma HeldRing(x: Entry, r: Rec, mask: nat)
    requires EntrySim(x, r, mask)
    ensures x.ttl == r.ttl && R.Holds(x.ring, R.Stamps(r.ticks), mask + 1) && x.ring.nstamps <= |x.ring.slots|
  {
  }

  lemma SameEntry(x: Entry, y: Entry, r: Rec, r': Rec, mask: nat)
    requires EntrySim(x, r, mask) && EntrySim(y, r', mask) && Extends(r, r', mask + 1) && x.key == y.key
    requires x.key.family == IPv4 && IsIPv4(x.key.addr)
    ensures x.ring.nstamps <= |x.ring.slots| && y.ring.nstamps <= |y.ring.slots|
    ensures x.ring.index == y.ring.index ==> T.RowOf(x) == T.RowOf(y)
  {
    hide R.Holds, R.Visible, R.Stamps, EntrySim, Dotted, NonZero;
    HeldRing(x, r, mask);
    HeldRing(y, r', mask);
    MoreStamps(r.ticks, r'.ticks);
    S.FewTouchesAreFaithful(Dotted(x.key.addr), x.ttl, y.ttl, x.ring, y.ring, R.Stamps(r.ticks), R.Stamps(r'.ticks[|r.ticks|..]), mask + 1);
  }

  /** Few touches are never missed: whatever the table holds, rows of equal index are equal. */
  lemma PollsAreFaithful<P(!new)>(m: S.Rows, a: Kernel<P>, n: S.Rows, b: Kernel<P>)
    requires Sound(a) && Sound(b) && FewTouches(a, b) && ReadFrom(m, a.table) && ReadFrom(n, b.table)
    ensures S.Faithful(m, n)
  {
    hide Sound, FewTouches, ReadAt;
    forall ip | ip in m && ip in n && m[ip].index == n[ip].index ensures m[ip] == n[ip] {
      var p :| ReadAt(a.table, p, m[ip]);
      var q :| ReadAt(b.table, q, n[ip]);
      SameRow(a, b, p, q, m[ip], n[ip]);
    }
  }

  /** Every address that is there before and after stays, and is stamped fewer times than the rings have slots. */
  ghost predicate Calm<P>(k: Kernel<P>, evs: seq<Event<P>>) {
    forall key | key in k.log.recs && key in LogAfter(k.log, k.cfg, k.table.mask, evs).recs ::
      Stays(k.log, k.cfg, k.table.mask, evs, key) && Touches(k.log, k.cfg, k.table.mask, evs, key) <= k.table.mask
  }

  /** The kernel after a run. */
  ghost function After<P>(k: Kernel<P>, evs: seq<Event<P>>): Kernel<P>
    requires Safe(k.table, k.cfg, evs)
  {
    Kernel(TableAfter(k.table, k.cfg, evs), LogAfter(k.log, k.cfg, k.table.mask, evs), k.cfg)
  }

  /** Any run of packets, commands and rule changes between two polls. */
  lemma CalmRunsAreFaithful<P(!new)>(k: Kernel<P>, evs: seq<Event<P>>, start: nat, now: nat, m: S.Rows, n: S.Rows)
    requires Sound(k) && Chronicle(k.log, start, now) && start <= now
    requires Safe(k.table, k.cfg, evs) && InOrder(evs, start, now) && Calm(k, evs)
    requires ReadFrom(m, k.table) && ReadFrom(n, After(k, evs).table)
    ensures Sound(After(k, evs)) && FewTouches(k, After(k, evs)) && S.Faithful(m, n)
  {
    SafeSimulates(k.table, k.log, k.cfg, evs, start, now);
    CalmIsFew(k, evs);
    hide Safe, Calm, FewTouches, ReadFrom, Simulates, Chronicle, InOrder;
    PollsAreFaithful(m, k, n, After(k, evs));
  }

  lemma CalmIsFew<P>(k: Kernel<P>, evs: seq<Event<P>>)
    requires Safe(k.table, k.cfg, evs) && Calm(k, evs)
    ensures FewTouches(k, After(k, evs))
  {
    hide Safe, Stays, Touches, LogAfter, TableAfter, Extends;
    var b := After(k, evs);
    forall key | key in k.log.recs && key in b.log.recs
      ensures k.table.mask == b.table.mask && Extends(k.log.recs[key], b.log.recs[key], k.table.mask + 1)
    {
      StaysExtends(k.table, k.log, k.cfg, evs, key);
      ExtendsMore(k.log.recs[key], b.log.recs[key], Touches(k.log, k.cfg, k.table.mask, evs, key) + 1, k.table.mask + 1);
    }
  }

  lemma ExtendsMore(r: Rec, r': Rec, n: nat, m: nat)
    requires Extends(r, r', n) && n <= m
    ensures Extends(r, r', m)
  {
  }

  // ---------------------------------------------------------------------------
  // All polls of a run of the protocol

  /** The latest poll of a table among the steps, or -1. */
  function LastPoll(steps: seq<N.Step>, name: string): (i: int)
    ensures -1 <= i < |steps| && (i >= 0 ==> steps[i].Poll? && steps[i].name == name)
  {
    if steps == [] then -1
    else if Last(steps).Poll? && Last(steps).name == name then |steps| - 1
    else LastPoll(steps[..|steps| - 1], name)
  }

  /** A poll reads a kernel table in which, since the last poll of that name, no address that stayed has been stamped
      as often as its ring has slots. */
  ghost predicate WatchedAt<P(!new)>(steps: seq<N.Step>, kernels: seq<Kernel<P>>, j: nat)
    requires |kernels| == |steps| && j < |steps|
  {
    steps[j].Poll? ==>
      && Sound(kernels[j]) && ReadFrom(steps[j].now, kernels[j].table)
      && var i := LastPoll(steps[..j], steps[j].name); (i >= 0 ==> FewTouches(kernels[i], kernels[j]))
  }

  /** The tables that the polls of a run have read, step by step. */
  ghost predicate Watched<P(!new)>(steps: seq<N.Step>, kernels: seq<Kernel<P>>) {
    |kernels| == |steps| && forall j :: 0 <= j < |steps| ==> WatchedAt(steps, kernels, j)
  }

  lemma WatchedBefore<P(!new)>(steps: seq<N.Step>, kernels: seq<Kernel<P>>, n: nat)
    requires Watched(steps, kernels) && n <= |steps|
    ensures Watched(steps[..n], kernels[..n])
  {
    hide Sound, ReadFrom, FewTouches, LastPoll;
    forall j | 0 <= j < n ensures WatchedAt(steps[..n], kernels[..n], j) {
      assert WatchedAt(steps, kernels, j) && steps[..n][..j] == steps[..j];
    }
  }

  lemma {:induction false} RunBefore(s: N.System, steps: seq<N.Step>)
    requires steps != [] && N.Run(s, steps).Some?
    ensures N.Run(s, steps[..|steps| - 1]).Some?
    ensures var u := N.Run(s, steps[..|steps| - 1]).value;
            N.Enabled(u, Last(steps)) && N.Run(s, steps) == Some(N.Do(u, Last(steps)))
    decreases steps
  {
    hide N.Enabled, N.Do;
    var init := steps[..|steps| - 1];
    if |steps| == 1 {
      assert init == [] && steps[1..] == [];
    } else {
      assert init[1..] == steps[1..][..|steps[1..]| - 1];
      RunBefore(N.Do(s, steps[0]), steps[1..]);
    }
  }

  /** Snapshots are what the latest polls have read, and no poll has missed a change. */
  ghost predicate UpToDate(steps: seq<N.Step>, s: N.System) {
    && s.faithful
    && forall name :: N.SnapshotOf(s.snapshots, name)
                      == var i := LastPoll(steps, name); if i >= 0 then steps[i].now else map[]
  }

  lemma PopKeepsSnapshots(u: N.System)
    requires u.httpQueue != []
    ensures N.HttpPopped(u).snapshots == u.snapshots && N.HttpPopped(u).faithful == u.faithful
  {
    hide N.Broadcast, D.Apply, N.ClearFarm;
  }

  lemma OtherSteps(u: N.System, step: N.Step)
    requires N.Enabled(u, step) && !step.Poll?
    ensures N.Do(u, step).snapshots == u.snapshots && N.Do(u, step).faithful == u.faithful
  {
    hide N.IsSnapshot, N.Broadcast, D.Apply, N.ClearFarm, N.HttpPopped, N.Carried, N.Arrived;
    if step.PopHttp? {
      PopKeepsSnapshots(u);
    }
  }

  /** Under the bound on the touches the history variable of the protocol never turns false. */
  lemma {:induction false} WatchedIsFaithful<P(!new)>(steps: seq<N.Step>, s: N.System, kernels: seq<Kernel<P>>)
    requires N.Run(N.INITIAL, steps) == Some(s) && Watched(steps, kernels)
    ensures UpToDate(steps, s)
    decreases |steps|
  {
    hide N.Enabled, N.Do, N.Run, Sound, ReadFrom, FewTouches, S.Faithful, S.WellKeyed;
    if steps == [] {
      NothingPolled(s);
    } else {
      var (init, step) := (steps[..|steps| - 1], Last(steps));
      RunBefore(N.INITIAL, steps);
      var u := N.Run(N.INITIAL, init).value;
      WatchedBefore(steps, kernels, |init|);
      WatchedIsFaithful(init, u, kernels[..|init|]);
      if step.Poll? {
        assert WatchedAt(steps, kernels, |init|);
        PollUpToDate(init, u, kernels, step);
      } else {
        OtherSteps(u, step);
      }
    }
  }

  lemma NothingPolled(s: N.System)
    requires N.Run(N.INITIAL, []) == Some(s)
    ensures UpToDate([], s)
  {
  }

  lemma PollUpToDate<P(!new)>(init: seq<N.Step>, u: N.System, kernels: seq<Kernel<P>>, step: N.Step)
    requires UpToDate(init, u) && step.Poll? && N.Enabled(u, step) && |kernels| == |init| + 1
    requires Watched(init, kernels[..|init|])
    requires WatchedAt(init + [step], kernels, |init|)
    ensures UpToDate(init + [step], N.Do(u, step))
  {
    hide Sound, ReadFrom, FewTouches, S.IsDiff, S.Faithful, LastPoll, N.Carried;
    var steps := init + [step];
    assert steps[..|init|] == init;
    var i := LastPoll(init, step.name);
    if i >= 0 {
      assert WatchedAt(init, kernels[..|init|], i);
      PollsAreFaithful(init[i].now, kernels[i], step.now, Last(kernels));
    } else {
      FirstPoll(step.now);
    }
    forall name ensures LastPoll(steps, name) == if name == step.name then |init| else LastPoll(init, name) {
      LastPollOn(init, step, name);
    }
  }

  lemma FirstPoll(now: S.Rows)
    ensures S.Faithful(map[], now)
  {
  }

  lemma LastPollOn(init: seq<N.Step>, step: N.Step, name: string)
    ensures LastPoll(init + [step], name) == if step.Poll? && step.name == name then |init| else LastPoll(init, name)
  {
    assert (init + [step])[..|init|] == init;
  }

  /** The kernel's table went from a to b by a run, whatever it was, that left a calm enough. */
  ghost predicate Leads<P>(a: Kernel<P>, evs: seq<Event<P>>, b: Kernel<P>) {
    && Safe(a.table, a.cfg, evs) && Calm(a, evs) && b == After(a, evs)
    && exists start, now :: Chronicle(a.log, start, now) && start <= now && InOrder(evs, start, now)
  }

  lemma LeadsIsFew<P>(a: Kernel<P>, evs: seq<Event<P>>, b: Kernel<P>)
    requires Sound(a) && Leads(a, evs, b)
    ensures Sound(b) && FewTouches(a, b)
  {
    CalmIsFew(a, evs);
    hide Safe, Calm, FewTouches, Simulates, Chronicle, InOrder, TableAfter, LogAfter;
    var start, now :| Chronicle(a.log, start, now) && start <= now && InOrder(evs, start, now);
    SafeSimulates(a.table, a.log, a.cfg, evs, start, now);
  }

  /** A poll reads the table as a run has left it since the last poll of that name; the first one, any table. */
  ghost predicate DrivenAt<P(!new)>(steps: seq<N.Step>, kernels: seq<Kernel<P>>, runs: seq<seq<Event<P>>>, j: nat)
    requires |runs| == |kernels| == |steps| && j < |steps|
  {
    steps[j].Poll? ==>
      && ReadFrom(steps[j].now, kernels[j].table)
      && var i := LastPoll(steps[..j], steps[j].name); if i < 0 then Sound(kernels[j]) else Leads(kernels[i], runs[j], kernels[j])
  }

  ghost predicate Driven<P(!new)>(steps: seq<N.Step>, kernels: seq<Kernel<P>>, runs: seq<seq<Event<P>>>) {
    |runs| == |kernels| == |steps| && forall j :: 0 <= j < |steps| ==> DrivenAt(steps, kernels, runs, j)
  }

  lemma {:induction false} DrivenIsSound<P(!new)>(steps: seq<N.Step>, kernels: seq<Kernel<P>>, runs: seq<seq<Event<P>>>, j: nat)
    requires Driven(steps, kernels, runs) && j < |steps| && steps[j].Poll?
    ensures Sound(kernels[j]) && WatchedAt(steps, kernels, j)
    decreases j
  {
    hide Sound, ReadFrom, FewTouches, Leads, LastPoll;
    assert DrivenAt(steps, kernels, runs, j);
    var i := LastPoll(steps[..j], steps[j].name);
    if i >= 0 {
      assert steps[..j][i] == steps[i];
      DrivenIsSound(steps, kernels, runs, i);
      LeadsIsFew(kernels[i], runs[j], kernels[j]);
    }
  }

  /** Calm runs of the kernel between the polls keep the bound. */
  lemma DrivenIsWatched<P(!new)>(steps: seq<N.Step>, kernels: seq<Kernel<P>>, runs: seq<seq<Event<P>>>)
    requires Driven(steps, kernels, runs)
    ensures Watched(steps, kernels)
  {
    hide Sound, ReadFrom, FewTouches, Leads, LastPoll;
    forall j | 0 <= j < |steps| ensures WatchedAt(steps, kernels, j) {
      if steps[j].Poll? {
        DrivenIsSound(steps, kernels, runs, j);
      }
    }
  }

  // ---------------------------------------------------------------------------
  // Convergence and takeover under the bound

  /** What the latest poll of a table has read. */
  function LastRead(steps: seq<N.Step>, name: string): S.Rows {
    var i := LastPoll(steps, name);
    if i >= 0 then steps[i].now else map[]
  }

  /** Convergence: once the queue and the channel of a synced backup on its first connection have drained, it holds
      the very entries that the latest poll of each table has read, provided that between two polls of a table
      no address that stayed was stamped as often as its ring has slots. */
  lemma Converges<P(!new)>(steps: seq<N.Step>, s: N.System, kernels: seq<Kernel<P>>, fd: N.Fd, name: string, ip: string)
    requires T.Drained(steps, s, fd) && Watched(steps, kernels)
    ensures D.At(s.backups[s.conns[fd].node].data, D.RecentSlot(name, ip)) == S.RowAt(LastRead(steps, name), ip)
    ensures T.EntriesOf(s.backups[s.conns[fd].node].data, name) == LastRead(steps, name)
  {
    WatchedIsFaithful(steps, s, kernels);
    hide N.Run, Watched, LastPoll;
    T.HoldsSnapshot(steps, s, fd, name);
  }

  /** End to end, from the master's kernel to the backup's: what is written back of the replicated entries answers
      every CHECK and UPDATE rule as the table that was polled last does. */
  lemma TakesOver<P(!new), Q>(steps: seq<N.Step>, s: N.System, kernels: seq<Kernel<P>>, fd: N.Fd, name: string, k: Kernel<P>,
                              ips: seq<string>, cfgB: Config, maskB: nat, at: Stamp, allocs: seq<Alloc<Q>>, w: W.Progress<Q>,
                              rule: Rule, key: Key, ttl: nat, now: Stamp, alloc: Alloc<P>, allocB: Alloc<Q>)
    requires T.Drained(steps, s, fd) && Watched(steps, kernels) && LastPoll(steps, name) >= 0 && k == kernels[LastPoll(steps, name)]
    requires T.Polled(LastRead(steps, name), k.table, k.log, k.cfg, maskB) && k.cfg.hz == cfgB.hz
    requires T.Rewritten(T.Replica(s, fd, name), ips, cfgB, maskB, at, allocs, w)
    requires Accepted(rule) && (rule.flags.check || rule.flags.update) && Fits(alloc, k.table) && Fits(allocB, w.table)
    ensures w.ok && exists logB :: Simulates(w.table, logB, cfgB)
    ensures Match(k.table, k.cfg, rule, key, ttl, now, alloc).verdict == Match(w.table, cfgB, rule, key, ttl, now, allocB).verdict
  {
    hide N.Run, Watched, LastPoll, Simulates, T.Polled, T.Rewritten, Match, Accepted, Fits, T.Drained;
    SnapshotIsRead(steps, s, kernels, fd, name);
    T.TakeoverDecides(steps, s, fd, name, k.table, k.log, k.cfg, ips, cfgB, maskB, at, allocs, w, rule, key, ttl, now, alloc, allocB);
  }

  /** The same where the counters of the two hosts differ: alike exactly if the stamp that decides the rule does not
      leave the window between the two readings. */
  lemma TakesOverSkewed<P(!new), Q>(steps: seq<N.Step>, s: N.System, kernels: seq<Kernel<P>>, fd: N.Fd, name: string, k: Kernel<P>,
                                    ips: seq<string>, cfgB: Config, maskB: nat, at: Stamp, allocs: seq<Alloc<Q>>, w: W.Progress<Q>,
                                    rule: Rule, key: Key, ttl: nat, a: nat, b: nat, alloc: Alloc<P>, allocB: Alloc<Q>)
    requires T.Drained(steps, s, fd) && Watched(steps, kernels) && LastPoll(steps, name) >= 0 && k == kernels[LastPoll(steps, name)]
    requires T.Polled(LastRead(steps, name), k.table, k.log, k.cfg, maskB) && k.cfg.hz == cfgB.hz
    requires T.Rewritten(T.Replica(s, fd, name), ips, cfgB, maskB, at, allocs, w)
    requires Serves(k.table.mask, rule) && (rule.flags.check || rule.flags.update) && Fits(alloc, k.table) && Fits(allocB, w.table)
    requires T.AllTimeline(k.log, a) && T.AllTimeline(k.log, b)
    ensures w.ok && exists logB :: Simulates(w.table, logB, cfgB)
    ensures Match(k.table, k.cfg, rule, key, ttl, At(a), alloc).verdict == Match(w.table, cfgB, rule, key, ttl, At(b), allocB).verdict
            <==> !T.Late(k.log, k.cfg, rule, key, ttl, a, b)
  {
    hide N.Run, Watched, LastPoll, Simulates, T.Polled, T.Rewritten, Match, Accepted, Fits, T.Drained, T.Late, T.AllTimeline, At;
    SnapshotIsRead(steps, s, kernels, fd, name);
    T.SkewedTakeover(steps, s, fd, name, k.table, k.log, k.cfg, ips, cfgB, maskB, at, allocs, w, rule, key, ttl, a, b, alloc, allocB);
  }

  lemma SnapshotIsRead<P(!new)>(steps: seq<N.Step>, s: N.System, kernels: seq<Kernel<P>>, fd: N.Fd, name: string)
    requires T.Drained(steps, s, fd) && Watched(steps, kernels)
    ensures s.faithful && N.SnapshotOf(s.snapshots, name) == LastRead(steps, name)
  {
    WatchedIsFaithful(steps, s, kernels);
    hide N.Run, Watched, LastPoll;
  }
}
