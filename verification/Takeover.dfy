// End to end: the firewall of a backup that has written back what it replicated decides as the
// master's firewall would.
module Takeover {
  import opened Seqs
  import opened Jiffies
  import opened Text
  import opened TableModel
  import opened MatchModel
  import opened LogModel
  import opened ProcFile
  import opened XtRecentProc
  import opened WriteBack
  import opened Messages
  import opened Wire
  import W = Reassembly
  import D = Replica
  import S = XtRecentSync
  import N = Protocol
  import R = Ring

  /** An entry the chain carries without loss into rings of maskB + 1 slots. */
  ghost predicate Restorable(e: Entry, mask: nat, maskB: nat)
    requires R.Shape(e.ring, mask) && mask < 256 && R.PowerOfTwo(mask + 1)
  {
    && e.key.family == IPv4 && IsIPv4(e.key.addr) && e.ttl < 256
    && 0 !in R.Visible(e.ring) && |R.Visible(e.ring)| <= maskB + 1
    && Short(RowOf(e))
  }

  /** The row user space reads for an entry. */
  function RowOf(e: Entry): UserEntry
    requires e.key.family == IPv4 && IsIPv4(e.key.addr) && e.ring.nstamps <= |e.ring.slots|
  {
    S.RowOf(Dotted(e.key.addr), e.ttl, e.ring)
  }

  lemma RowIsRead(e: Entry, mask: nat, maskB: nat)
    requires R.Shape(e.ring, mask) && mask < 256 && R.PowerOfTwo(mask + 1) && Restorable(e, mask, maskB)
    ensures ParseRow(Row(e, mask)) == Some(RowOf(e)) && RowOf(e).stamps == R.Visible(e.ring)
    ensures Plausible(RowOf(e)) && Writable(RowOf(e)) && KeyOf(RowOf(e)) == e.key
  {
    hide Row, Command, ParseRow;
    RowRoundTrip(e, mask);
    ParseOfDotted(e.key.addr);
  }

  ghost predicate Shaped<P>(t: Table<P>) {
    t.mask < 256 && R.PowerOfTwo(t.mask + 1) && forall p | p in t.store :: R.Shape(t.store[p].ring, t.mask)
  }

  /** e is the row of the entry at p. */
  ghost predicate Shows<P>(t: Table<P>, p: P, maskB: nat, e: UserEntry)
    requires Shaped(t)
  {
    p in t.store && Restorable(t.store[p], t.mask, maskB) && ParseRow(Row(t.store[p], t.mask)) == Some(e)
  }

  /** m is what a poll of the table reads: one row for each entry. */
  ghost predicate PolledFrom<P(!new)>(m: S.Rows, t: Table<P>, maskB: nat)
    requires Shaped(t)
  {
    && (forall p | p in t.store :: exists ip :: ip in m && Shows(t, p, maskB, m[ip]))
    && (forall ip | ip in m :: exists p :: Shows(t, p, maskB, m[ip]))
  }

  // ---------------------------------------------------------------------------
  // One entry

  /** Carried through row, parse, wire and write-back, an entry is hit by the same rules at the same times. */
  lemma SameHits(a: Entry, maskA: nat, b: Entry, maskB: nat, rule: Rule, cutoff: Stamp)
    requires R.Shape(a.ring, maskA) && maskA < 256 && R.PowerOfTwo(maskA + 1) && Restorable(a, maskA, maskB)
    requires maskB <= 127 && R.PowerOfTwo(maskB + 1)
    requires EntrySim(b, Restored(RowOf(a)), maskB)
    ensures b.ring.nstamps <= |b.ring.slots| && (HitBy(rule, b, cutoff) <==> HitBy(rule, a, cutoff))
  {
    RowIsRead(a, maskA, maskB);
    hide Row, Restorable, Plausible, Command;
    RestoredVerdict(b, RowOf(a), maskB, cutoff, rule.seconds);
  }

  // ---------------------------------------------------------------------------
  // A whole table

  /** The entry the reference map stands for. */
  lemma EntryOfKey<P>(t: Table<P>, log: Log, cfg: Config, key: Key) returns (p: P)
    requires Simulates(t, log, cfg) && key in log.recs
    ensures p in t.store && t.store[p].key == key && EntrySim(t.store[p], log.recs[key], t.mask)
  {
    LookupIsMap(t, log, cfg, key, 0);
    p := Lookup(t, cfg, key, 0).value;
  }

  lemma KeyOfEntry<P>(t: Table<P>, log: Log, cfg: Config, p: P)
    requires Simulates(t, log, cfg) && p in t.store
    ensures t.store[p].key in log.recs && EntrySim(t.store[p], log.recs[t.store[p].key], t.mask)
    ensures R.Shape(t.store[p].ring, t.mask) && t.mask <= 127 && R.PowerOfTwo(t.mask + 1)
  {
  }

  /** rows is what m holds, in some order. */
  ghost predicate RowsFrom(rows: seq<UserEntry>, m: S.Rows) {
    && (forall e | e in rows :: e.srcIp in m && e == m[e.srcIp])
    && (forall ip | ip in m :: m[ip] in rows)
    && (forall i, j :: 0 <= i < j < |rows| ==> rows[i].srcIp != rows[j].srcIp)
  }

  /** e holds all that the chain carries of the entry at p. */
  ghost predicate Carries<P>(t: Table<P>, p: P, maskB: nat, e: UserEntry)
    requires Shaped(t)
  {
    p in t.store && Restorable(t.store[p], t.mask, maskB) && e == RowOf(t.store[p])
  }

  /** A row of the poll and the entry it shows. */
  lemma ShownRow<P>(t: Table<P>, p: P, maskB: nat, e: UserEntry)
    requires Shaped(t) && Shows(t, p, maskB, e)
    ensures p in t.store && Carries(t, p, maskB, e)
    ensures Plausible(e) && Writable(e) && KeyOf(e) == t.store[p].key
  {
    RowIsRead(t.store[p], t.mask, maskB);
    hide ParseRow, Row;
  }

  lemma PolledRow<P(!new)>(m: S.Rows, t: Table<P>, maskB: nat, e: UserEntry) returns (p: P)
    requires Shaped(t) && PolledFrom(m, t, maskB) && e.srcIp in m && e == m[e.srcIp]
    ensures Shows(t, p, maskB, e) && Plausible(e) && Writable(e) && p in t.store && KeyOf(e) == t.store[p].key
  {
    hide Shows, Plausible, Writable;
    p :| Shows(t, p, maskB, m[e.srcIp]);
    ShownRow(t, p, maskB, e);
  }

  lemma PolledEntry<P(!new)>(m: S.Rows, t: Table<P>, maskB: nat, rows: seq<UserEntry>, p: P) returns (e: UserEntry)
    requires Shaped(t) && PolledFrom(m, t, maskB) && RowsFrom(rows, m) && p in t.store
    ensures e in rows && Carries(t, p, maskB, e) && Plausible(e) && Writable(e) && KeyOf(e) == t.store[p].key
  {
    hide Shows, Carries, Plausible, Writable;
    var ip :| ip in m && Shows(t, p, maskB, m[ip]);
    e := m[ip];
    ShownRow(t, p, maskB, e);
  }

  /** A row that was written is on record. */
  lemma RowRecorded(rows: seq<UserEntry>, e: UserEntry)
    requires (forall i :: 0 <= i < |rows| ==> Plausible(rows[i])) && RecordsOf(LogOf(rows).recs, rows)
    requires e in rows && Plausible(e) && Writable(e)
    ensures KeyOf(e) in LogOf(rows).recs && LogOf(rows).recs[KeyOf(e)] == Restored(e)
  {
    hide Plausible, Writable, KeyOf, LogOf, Restored;
    var i :| 0 <= i < |rows| && rows[i] == e;
  }

  lemma PolledRowsPlausible<P(!new)>(m: S.Rows, t: Table<P>, maskB: nat, rows: seq<UserEntry>)
    requires Shaped(t)
    requires PolledFrom(m, t, maskB) && RowsFrom(rows, m)
    ensures forall i :: 0 <= i < |rows| ==> Plausible(rows[i])
  {
    hide Plausible, PolledFrom;
    forall i | 0 <= i < |rows| ensures Plausible(rows[i]) {
      assert rows[i] in rows;
      var _ := PolledRow(m, t, maskB, rows[i]);
    }
  }

  /** The restored table has no keys but the master's. */
  lemma Backward<P(!new)>(m: S.Rows, t: Table<P>, maskB: nat, rows: seq<UserEntry>, key: Key) returns (p: P)
    requires Shaped(t)
    requires PolledFrom(m, t, maskB) && RowsFrom(rows, m)
    requires (forall i :: 0 <= i < |rows| ==> Plausible(rows[i])) && RecordsOf(LogOf(rows).recs, rows) && key in LogOf(rows).recs
    ensures p in t.store && t.store[p].key == key
  {
    hide Plausible, Writable, LogOf, Restored, PolledFrom, Shows;
    var i :| 0 <= i < |rows| && Writable(rows[i]) && KeyOf(rows[i]) == key;
    assert rows[i] in rows;
    p := PolledRow(m, t, maskB, rows[i]);
  }

  /** The answer of a rule that tests to what its lookup found. */
  predicate Answer<P(==)>(t: Table<P>, rule: Rule, found: Option<P>, cutoff: Stamp) {
    match found
    case None => rule.invert
    case Some(q) => q in t.store && t.store[q].ring.nstamps <= |t.store[q].ring.slots| && HitBy(rule, t.store[q], cutoff) != rule.invert
  }

  lemma TestVerdict<P>(t: Table<P>, log: Log, cfg: Config, rule: Rule, key: Key, ttl: nat, now: Stamp, alloc: Alloc<P>)
    requires Simulates(t, log, cfg) && Accepted(rule) && (rule.flags.check || rule.flags.update) && Fits(alloc, t)
    ensures Match(t, cfg, rule, key, ttl, now, alloc).verdict
            == Answer(t, rule, Lookup(t, cfg, key, if rule.flags.ttl then ttl else 0), Cutoff(now, Span(rule.seconds, cfg.hz)))
  {
    hide Touch, Remove, Reap, Outside, Lookup, Cutoff, Span, HitBy, EntrySim, LogShape, Keyed;
    LookupIsMap(t, log, cfg, key, if rule.flags.ttl then ttl else 0);
  }

  /** The restored table, and what it was restored from. */
  ghost predicate RestoredFrom<P(!new)>(m: S.Rows, t: Table<P>, maskB: nat, rows: seq<UserEntry>, logB: Log)
    requires Shaped(t)
  {
    && PolledFrom(m, t, maskB) && RowsFrom(rows, m)
    && (forall i :: 0 <= i < |rows| ==> Plausible(rows[i])) && logB == LogOf(rows) && RecordsOf(logB.recs, rows)
  }

  lemma SameFound<P(!new)>(m: S.Rows, rows: seq<UserEntry>, logB: Log, t: Table<P>, log: Log, cfg: Config, maskB: nat, key: Key, ttl: nat)
    requires Simulates(t, log, cfg)
    requires Shaped(t)
    requires RestoredFrom(m, t, maskB, rows, logB)
    ensures Found(log, key, ttl) <==> Found(logB, key, ttl)
  {
    hide Simulates, PolledFrom, RowsFrom, RecordsOf, LogOf, Plausible, Writable, Shows;
    if key in log.recs {
      var p := EntryOfKey(t, log, cfg, key);
      var e := PolledEntry(m, t, maskB, rows, p);
      RowRecorded(rows, e);
    } else if key in logB.recs {
      var p := Backward(m, t, maskB, rows, key);
      KeyOfEntry(t, log, cfg, p);
    }
  }

  /** An entry and the one restored for its key are hit alike. */
  lemma SameHit<P(!new)>(m: S.Rows, rows: seq<UserEntry>, logB: Log, t: Table<P>, p: P, b: Entry, maskB: nat, rule: Rule, cutoff: Stamp)
    requires Shaped(t)
    requires RestoredFrom(m, t, maskB, rows, logB) && p in t.store && maskB <= 127 && R.PowerOfTwo(maskB + 1)
    requires t.store[p].key in logB.recs ==> EntrySim(b, logB.recs[t.store[p].key], maskB)
    ensures t.store[p].ring.nstamps <= |t.store[p].ring.slots| && b.ring.nstamps <= |b.ring.slots|
    ensures HitBy(rule, b, cutoff) <==> HitBy(rule, t.store[p], cutoff)
  {
    hide HitBy, PolledFrom, RowsFrom, RecordsOf, LogOf, Restorable, RowOf, Plausible, Writable, EntrySim;
    var e := PolledEntry(m, t, maskB, rows, p);
    RowRecorded(rows, e);
    SameHits(t.store[p], t.mask, b, maskB, rule, cutoff);
  }

  /** Both lookups find an entry or neither does. */
  lemma SameLookup<P(!new), Q>(m: S.Rows, rows: seq<UserEntry>, logB: Log, t: Table<P>, log: Log, cfg: Config, u: Table<Q>, cfgB: Config,
                               key: Key, ttl: nat) returns (p: Option<P>, q: Option<Q>)
    requires Simulates(t, log, cfg) && Shaped(t)
    requires RestoredFrom(m, t, u.mask, rows, logB) && Simulates(u, logB, cfgB)
    ensures p == Lookup(t, cfg, key, ttl) && q == Lookup(u, cfgB, key, ttl) && (p.Some? <==> q.Some?)
    ensures p.Some? ==> p.value in t.store && q.value in u.store && t.store[p.value].key == key && u.mask <= 127 && R.PowerOfTwo(u.mask + 1)
    ensures p.Some? && key in logB.recs ==> EntrySim(u.store[q.value], logB.recs[key], u.mask)
  {
    p, q := Lookup(t, cfg, key, ttl), Lookup(u, cfgB, key, ttl);
    LookupIsMap(t, log, cfg, key, ttl);
    LookupIsMap(u, logB, cfgB, key, ttl);
    SameFound(m, rows, logB, t, log, cfg, u.mask, key, ttl);
    hide RestoredFrom, LogOf, Found, Lookup;
    if q.Some? {
      KeyOfEntry(u, logB, cfgB, q.value);
    }
  }

  /** A rule that tests, CHECK or UPDATE, gives the same verdict on both tables, for every address. */
  lemma SameVerdict<P(!new), Q>(m: S.Rows, rows: seq<UserEntry>, logB: Log, t: Table<P>, log: Log, cfg: Config, u: Table<Q>, cfgB: Config,
                                rule: Rule, key: Key, ttl: nat, now: Stamp, alloc: Alloc<P>, allocB: Alloc<Q>)
    requires Simulates(t, log, cfg)
    requires Shaped(t)
    requires RestoredFrom(m, t, u.mask, rows, logB) && Simulates(u, logB, cfgB) && cfg.hz == cfgB.hz
    requires Accepted(rule) && (rule.flags.check || rule.flags.update) && Fits(alloc, t) && Fits(allocB, u)
    ensures Match(t, cfg, rule, key, ttl, now, alloc).verdict == Match(u, cfgB, rule, key, ttl, now, allocB).verdict
  {
    hide Match, HitBy, RestoredFrom, Accepted, Fits, Cutoff, Answer;
    var wanted := if rule.flags.ttl then ttl else 0;
    TestVerdict(t, log, cfg, rule, key, ttl, now, alloc);
    TestVerdict(u, logB, cfgB, rule, key, ttl, now, allocB);
    var p, q := SameLookup(m, rows, logB, t, log, cfg, u, cfgB, key, wanted);
    hide Simulates, Lookup;
    SameAnswer(m, rows, logB, t, u, p, q, key, rule, Cutoff(now, Span(rule.seconds, cfg.hz)));
  }

  lemma SameAnswer<P(!new), Q>(m: S.Rows, rows: seq<UserEntry>, logB: Log, t: Table<P>, u: Table<Q>, p: Option<P>, q: Option<Q>,
                               key: Key, rule: Rule, cutoff: Stamp)
    requires Shaped(t) && RestoredFrom(m, t, u.mask, rows, logB) && (p.Some? <==> q.Some?)
    requires p.Some? ==> p.value in t.store && q.value in u.store && t.store[p.value].key == key && u.mask <= 127 && R.PowerOfTwo(u.mask + 1)
    requires p.Some? && key in logB.recs ==> EntrySim(u.store[q.value], logB.recs[key], u.mask)
    ensures Answer(t, rule, p, cutoff) == Answer(u, rule, q, cutoff)
  {
    hide RestoredFrom, HitBy, EntrySim;
    if p.Some? {
      SameHit(m, rows, logB, t, p.value, u.store[q.value], u.mask, rule, cutoff);
    }
  }

  // ---------------------------------------------------------------------------
  // From the master's table to the backup's

  /** recent_data[name].entries */
  function EntriesOf(d: D.Data, name: string): S.Rows {
    if name in d.recent then d.recent[name] else map[]
  }

  /** A drained and synced backup holds the last snapshot of each table, row for row. */
  lemma HoldsSnapshot(steps: seq<N.Step>, s: N.System, fd: N.Fd, name: string)
    requires N.Run(N.INITIAL, steps) == Some(s) && fd in s.conns && s.conns[fd].node in s.backups
    requires s.recentQueue == [] && s.conns[fd].chan == [] && s.conns[fd].synced && s.backups[s.conns[fd].node].first && s.faithful
    ensures EntriesOf(s.backups[s.conns[fd].node].data, name) == N.SnapshotOf(s.snapshots, name)
  {
    var (d, m) := (s.backups[s.conns[fd].node].data, N.SnapshotOf(s.snapshots, name));
    var entries := EntriesOf(d, name);
    forall ip ensures ip in entries <==> ip in m ensures ip in m ==> entries[ip] == m[ip] {
      N.Convergence(steps, s, fd, name, ip);
      hide N.Run;
      assert D.At(d, D.RecentSlot(name, ip)) == S.RowAt(m, ip);
    }
  }

  lemma {:induction false} DistinctSize<T>(s: seq<T>)
    requires Distinct(s)
    ensures |(set x | x in s)| == |s|
  {
    if s != [] {
      var (init, x) := (s[..|s| - 1], Last(s));
      DistinctSize(init);
      assert s == init + [x];
      assert (set y | y in s) == (set y | y in init) + {x};
      assert x !in init;
    }
  }

  lemma SubsetOfSize<T>(a: set<T>, b: set<T>)
    requires a <= b && |a| == |b|
    ensures a == b
  {
    assert |b - a| == |b| - |a|;
  }

  /** Rows written one by one, none left out and none twice, are the rows of the map. */
  lemma AllRows(m: S.Rows, ips: seq<string>)
    requires S.WellKeyed(m) && Distinct(ips) && |ips| == |m| && forall i :: 0 <= i < |ips| ==> ips[i] in m
    ensures RowsFrom(RowsAt(m, ips), m)
  {
    var rows := RowsAt(m, ips);
    DistinctSize(ips);
    var chosen := set ip | ip in ips;
    assert chosen <= m.Keys;
    SubsetOfSize(chosen, m.Keys);
    forall ip | ip in m ensures m[ip] in rows {
      assert ip in chosen;
      var i :| 0 <= i < |ips| && ips[i] == ip;
      assert rows[i] == m[ip];
    }
  }

  /** Every row of a polled table can be written, so no write is refused. */
  lemma PolledRowsShort<P(!new)>(m: S.Rows, t: Table<P>, maskB: nat, rows: seq<UserEntry>)
    requires Shaped(t)
    requires PolledFrom(m, t, maskB) && forall e | e in rows :: e.srcIp in m && e == m[e.srcIp]
    ensures AllShort(rows)
  {
    hide PolledFrom, Restorable, Plausible;
    if rows != [] {
      PolledRowsShort(m, t, maskB, rows[..|rows| - 1]);
      assert Last(rows) in rows;
      var _ := PolledRow(m, t, maskB, Last(rows));
    }
  }

  /** Written to a flushed table, the rows of a poll restore it. */
  lemma WrittenBack<P(!new), Q>(m: S.Rows, rows: seq<UserEntry>, t: Table<P>, cfgB: Config, maskB: nat,
                                at: Stamp, allocs: seq<Alloc<Q>>, w: Progress<Q>) returns (logB: Log)
    requires Shaped(t)
    requires PolledFrom(m, t, maskB) && RowsFrom(rows, m) && maskB <= 127 && R.PowerOfTwo(maskB + 1)
    requires 0 < cfgB.listTot && |rows| == |allocs| <= cfgB.listTot
    requires WriteRows(Empty(cfgB, maskB), cfgB, at, rows, allocs) == Some(w)
    ensures w.ok && w.table.mask == maskB && Shaped(t) && RestoredFrom(m, t, maskB, rows, logB) && Simulates(w.table, logB, cfgB)
  {
    PolledRowsPlausible(m, t, maskB, rows);
    PolledRowsShort(m, t, maskB, rows);
    RowsAreRecords(rows);
    hide PolledFrom, Plausible, WriteRows, Simulates, LogOf, RecordsOf, AllShort, NewKeys;
    WriteRowsSimulates(cfgB, maskB, at, rows, allocs);
    logB := LogOf(rows);
  }

  /** The queue and the channel have drained, and the snapshot was delivered. */
  ghost predicate Drained(steps: seq<N.Step>, s: N.System, fd: N.Fd) {
    && N.Run(N.INITIAL, steps) == Some(s)
    && fd in s.conns && s.conns[fd].node in s.backups
    && s.recentQueue == [] && s.conns[fd].chan == [] && s.conns[fd].synced && s.backups[s.conns[fd].node].first
  }

  function Replica(s: N.System, fd: N.Fd, name: string): S.Rows
    requires fd in s.conns && s.conns[fd].node in s.backups
  {
    EntriesOf(s.backups[s.conns[fd].node].data, name)
  }

  /** The kernel's table as last polled. */
  ghost predicate Polled<P(!new)>(m: S.Rows, t: Table<P>, log: Log, cfg: Config, maskB: nat) {
    Simulates(t, log, cfg) && S.WellKeyed(m) && PolledFrom(m, t, maskB)
  }

  /** All entries written, one by one, into a flushed table. */
  ghost predicate Rewritten<Q>(entries: S.Rows, ips: seq<string>, cfg: Config, mask: nat, at: Stamp, allocs: seq<Alloc<Q>>, w: Progress<Q>) {
    && mask <= 127 && R.PowerOfTwo(mask + 1) && 0 < cfg.listTot
    && Distinct(ips) && |ips| == |entries| && (forall i :: 0 <= i < |ips| ==> ips[i] in entries)
    && |ips| == |allocs| <= cfg.listTot
    && WriteRows(Empty(cfg, mask), cfg, at, RowsAt(entries, ips), allocs) == Some(w)
  }

  lemma RewrittenDecides<P(!new), Q>(m: S.Rows, t: Table<P>, log: Log, cfg: Config,
                                     ips: seq<string>, cfgB: Config, maskB: nat, at: Stamp, allocs: seq<Alloc<Q>>, w: Progress<Q>,
                                     rule: Rule, key: Key, ttl: nat, now: Stamp, alloc: Alloc<P>, allocB: Alloc<Q>)
    requires Polled(m, t, log, cfg, maskB) && Rewritten(m, ips, cfgB, maskB, at, allocs, w) && cfg.hz == cfgB.hz
    requires Accepted(rule) && (rule.flags.check || rule.flags.update) && Fits(alloc, t) && Fits(allocB, w.table)
    ensures w.ok && (exists logB :: Simulates(w.table, logB, cfgB))
    ensures Match(t, cfg, rule, key, ttl, now, alloc).verdict == Match(w.table, cfgB, rule, key, ttl, now, allocB).verdict
  {
    var rows := RowsAt(m, ips);
    AllRows(m, ips);
    hide PolledFrom, WriteRows, Match, RowsFrom, LogOf, Accepted, Fits;
    var logB := WrittenBack(m, rows, t, cfgB, maskB, at, allocs, w);
    hide Simulates;
    SameVerdict(m, rows, logB, t, log, cfg, w.table, cfgB, rule, key, ttl, now, alloc, allocB);
  }

  /** End to end. Whatever the run of the protocol was: once the queue and the channel of a synced backup on its
      first connection have drained, writing its entries of a table, in any order, into a flushed table whose rings
      have room for the stamps restores a table on which every CHECK and UPDATE rule gives, for every packet at every
      time, the verdict it would give on the master's table as last polled. */
  lemma TakeoverDecides<P(!new), Q>(steps: seq<N.Step>, s: N.System, fd: N.Fd, name: string, t: Table<P>, log: Log, cfg: Config,
                                    ips: seq<string>, cfgB: Config, maskB: nat, at: Stamp, allocs: seq<Alloc<Q>>, w: Progress<Q>,
                                    rule: Rule, key: Key, ttl: nat, now: Stamp, alloc: Alloc<P>, allocB: Alloc<Q>)
    requires Drained(steps, s, fd) && s.faithful && Polled(N.SnapshotOf(s.snapshots, name), t, log, cfg, maskB) && cfg.hz == cfgB.hz
    requires Rewritten(Replica(s, fd, name), ips, cfgB, maskB, at, allocs, w)
    requires Accepted(rule) && (rule.flags.check || rule.flags.update) && Fits(alloc, t) && Fits(allocB, w.table)
    ensures w.ok && exists logB :: Simulates(w.table, logB, cfgB)
    ensures Match(t, cfg, rule, key, ttl, now, alloc).verdict == Match(w.table, cfgB, rule, key, ttl, now, allocB).verdict
  {
    HoldsSnapshot(steps, s, fd, name);
    hide Simulates, Polled, Rewritten, Match, Accepted, Fits, N.Run;
    RewrittenDecides(N.SnapshotOf(s.snapshots, name), t, log, cfg, ips, cfgB, maskB, at, allocs, w, rule, key, ttl, now, alloc, allocB);
  }

  // ---------------------------------------------------------------------------
  // Two hosts whose tick counters differ

  /** Every history is in order and near enough to the time for the counter to tell past from future. */
  ghost predicate AllTimeline(log: Log, now: nat) {
    forall k | k in log.recs :: R.Timeline(log.recs[k].ticks, now)
  }

  /** The packet's address is known, and the stamp that decides the rule leaves its window between the two times. */
  predicate Late(log: Log, cfg: Config, rule: Rule, key: Key, ttl: nat, a: nat, b: nat) {
    && Found(log, key, if rule.flags.ttl then ttl else 0)
    && R.Leaves(log.recs[key].ticks, a, b, Span(rule.seconds, cfg.hz), rule.seconds, rule.hitCount)
  }

  lemma AnswerInTime<P>(t: Table<P>, log: Log, cfg: Config, rule: Rule, key: Key, found: Option<P>, now: nat)
    requires Simulates(t, log, cfg) && Serves(t.mask, rule) && AllTimeline(log, now)
    requires found.Some? ==> found.value in t.store && t.store[found.value].key == key
    ensures found.Some? ==> key in log.recs
    ensures var span := Span(rule.seconds, cfg.hz);
            Answer(t, rule, found, Cutoff(At(now), span))
            <==> (found.Some? && R.RecentTicks(log.recs[key].ticks, now, span, rule.seconds) >= R.Need(rule.hitCount)) != rule.invert
  {
    if found.Some? {
      KeyOfEntry(t, log, cfg, found.value);
      hide Simulates, HitBy, EntrySim, Serves, R.RecentTicks, Cutoff, At, R.Timeline;
      HitInTime(rule, t.store[found.value], log.recs[key], t.mask, now, Span(rule.seconds, cfg.hz));
    }
  }

  /** One table asked at two times. */
  lemma TwoTimesDecide<P>(t: Table<P>, log: Log, cfg: Config, rule: Rule, key: Key, ttl: nat, a: nat, b: nat, alloc: Alloc<P>)
    requires Simulates(t, log, cfg) && Serves(t.mask, rule) && (rule.flags.check || rule.flags.update) && Fits(alloc, t)
    requires AllTimeline(log, a) && AllTimeline(log, b)
    ensures Match(t, cfg, rule, key, ttl, At(a), alloc).verdict == Match(t, cfg, rule, key, ttl, At(b), alloc).verdict
            <==> !Late(log, cfg, rule, key, ttl, a, b)
  {
    hide Match, Fits, Lookup, Answer, At, Cutoff, Span, R.Leaves, R.RecentTicks;
    var wanted := if rule.flags.ttl then ttl else 0;
    var found := Lookup(t, cfg, key, wanted);
    TestVerdict(t, log, cfg, rule, key, ttl, At(a), alloc);
    TestVerdict(t, log, cfg, rule, key, ttl, At(b), alloc);
    LookupIsMap(t, log, cfg, key, wanted);
    AnswerInTime(t, log, cfg, rule, key, found, a);
    AnswerInTime(t, log, cfg, rule, key, found, b);
    if found.Some? {
      InOrderOf(log, key, a);
      R.TwoTimes(log.recs[key].ticks, a, b, Span(rule.seconds, cfg.hz), rule.seconds, rule.hitCount);
    }
  }

  lemma InOrderOf(log: Log, key: Key, now: nat)
    requires AllTimeline(log, now) && key in log.recs
    ensures forall i, j :: 0 <= i <= j < |log.recs[key].ticks| ==> log.recs[key].ticks[i] <= log.recs[key].ticks[j]
  {
  }

  /** The counters of two hosts count from different moments, and stamps are written back as they are. Where the
      master's shows a and the backup's shows b, a rule is answered alike exactly if the stamp that decides it does
      not leave the window between a and b. */
  lemma SkewedTakeover<P(!new), Q>(steps: seq<N.Step>, s: N.System, fd: N.Fd, name: string, t: Table<P>, log: Log, cfg: Config,
                                   ips: seq<string>, cfgB: Config, maskB: nat, at: Stamp, allocs: seq<Alloc<Q>>, w: Progress<Q>,
                                   rule: Rule, key: Key, ttl: nat, a: nat, b: nat, alloc: Alloc<P>, allocB: Alloc<Q>)
    requires Drained(steps, s, fd) && s.faithful && Polled(N.SnapshotOf(s.snapshots, name), t, log, cfg, maskB) && cfg.hz == cfgB.hz
    requires Rewritten(Replica(s, fd, name), ips, cfgB, maskB, at, allocs, w)
    requires Serves(t.mask, rule) && (rule.flags.check || rule.flags.update) && Fits(alloc, t) && Fits(allocB, w.table)
    requires AllTimeline(log, a) && AllTimeline(log, b)
    ensures w.ok && exists logB :: Simulates(w.table, logB, cfgB)
    ensures Match(t, cfg, rule, key, ttl, At(a), alloc).verdict == Match(w.table, cfgB, rule, key, ttl, At(b), allocB).verdict
            <==> !Late(log, cfg, rule, key, ttl, a, b)
  {
    hide Simulates, Rewritten, Match, Fits, N.Run, At, Late, Drained, AllTimeline;
    TakeoverDecides(steps, s, fd, name, t, log, cfg, ips, cfgB, maskB, at, allocs, w, rule, key, ttl, At(b), alloc, allocB);
    TwoTimesDecide(t, log, cfg, rule, key, ttl, a, b, alloc);
  }

  /** The bytes of a channel, however the socket cuts them, come out of the receive loop as the packets the
      protocol delivers. */
  lemma SocketDelivers(steps: seq<N.Step>, s: N.System, fd: N.Fd, buffer: seq<Byte>, chunks: seq<W.Chunk>)
    requires N.Run(N.INITIAL, steps) == Some(s) && fd in s.conns
    ensures var chan := s.conns[fd].chan;
            && W.AllSendable(chan)
            && (W.Stream(chunks) == Flatten(W.Frames(chan)) && W.Flows(W.Connection, W.Frames(chan), 0, chunks, |buffer|) ==>
                  W.Run(W.Connection, buffer, 0, chunks).packets == W.Arrived(chan))
  {
    var chan := s.conns[fd].chan;
    forall i | 0 <= i < |chan| ensures Sendable(chan[i]) {
      N.ChannelsCarried(steps, s, fd, i);
    }
    hide N.Run, W.Run, W.Flows, Sendable;
    if W.Stream(chunks) == Flatten(W.Frames(chan)) && W.Flows(W.Connection, W.Frames(chan), 0, chunks, |buffer|) {
      W.AllArrive(W.Connection, chan, buffer, chunks);
    }
  }
}
