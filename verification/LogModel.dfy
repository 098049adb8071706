// The reference machine: a plain map from address to the complete tick history, with the keys
// in order of last use.  RunsAgree shows that the kernel's table gives the same verdicts.
module LogModel {
  import opened Seqs
  import opened Jiffies
  import opened TableModel
  import opened MatchModel
  import R = Ring

  datatype Rec = Rec(ttl: nat, ticks: seq<nat>)

  datatype Log = Log(order: seq<Key>, recs: map<Key, Rec>)

  datatype LogOutcome = LogOutcome(log: Log, verdict: bool, dangling: bool)

  const EMPTY := Log([], map[])

  function Forget(log: Log, key: Key): Log {
    Log(Without(log.order, key), log.recs - {key})
  }

  function Remember(log: Log, key: Key, ttl: nat, now: nat): Log {
    Log(log.order + [key], log.recs[key := Rec(ttl, [now])])
  }

  /** The least recently used key goes when the table is full. */
  function Evict(log: Log, cfg: Config): Log {
    if |log.order| >= cfg.listTot && log.order != [] then Forget(log, log.order[0]) else log
  }

  /** A new key, which pushes out the least recently used one when the table is full. */
  function Admit(log: Log, cfg: Config, key: Key, ttl: nat, now: nat): Log {
    Remember(Evict(log, cfg), key, ttl, now)
  }

  function Again(log: Log, key: Key, ttl: nat, now: nat): Log
    requires key in log.recs
  {
    Log(Without(log.order, key) + [key], log.recs[key := Rec(ttl, log.recs[key].ticks + [now])])
  }

  predicate Expired(rec: Rec, now: nat, span: nat) {
    rec.ticks == [] || Last(rec.ticks) + span < now
  }

  function Expire(log: Log, now: nat, span: nat): Log {
    if log.order != [] && log.order[0] in log.recs && Expired(log.recs[log.order[0]], now, span)
    then Forget(log, log.order[0]) else log
  }

  predicate Found(log: Log, key: Key, ttl: nat) {
    key in log.recs && (ttl == log.recs[key].ttl || ttl == 0 || log.recs[key].ttl == 0)
  }

  /** CHECK and UPDATE on a known key. */
  function LogTest(log: Log, cfg: Config, rule: Rule, key: Key, ttl: nat, now: nat): LogOutcome
    requires key in log.recs
  {
    var span := Span(rule.seconds, cfg.hz);
    var enough := R.RecentTicks(log.recs[key].ticks, now, span, rule.seconds) >= R.Need(rule.hitCount);
    var verdict := enough != rule.invert;
    var kept := if rule.flags.reap then Expire(log, now, span) else log;
    if rule.flags.update && verdict then
      if key in kept.recs then LogOutcome(Again(kept, key, ttl, now), verdict, false)
      else LogOutcome(kept, verdict, true)
    else LogOutcome(kept, verdict, false)
  }

  function LogMatch(log: Log, cfg: Config, rule: Rule, key: Key, ttl: nat, now: nat): LogOutcome {
    if !Found(log, key, if rule.flags.ttl then ttl else 0) then
      if rule.flags.set_ then LogOutcome(Admit(log, cfg, key, ttl, now), !rule.invert, false)
      else LogOutcome(log, rule.invert, false)
    else if rule.flags.set_ then LogOutcome(Again(log, key, ttl, now), !rule.invert, false)
    else if rule.flags.remove then LogOutcome(Forget(log, key), !rule.invert, false)
    else LogTest(log, cfg, rule, key, ttl, now)
  }

  // ---------------------------------------------------------------------------
  // Simulation

  /** keys are the keys of the entries ps, position by position. */
  ghost predicate Keyed<P>(ps: seq<P>, keys: seq<Key>, store: map<P, Entry>) {
    && |ps| == |keys|
    && forall i :: 0 <= i < |ps| ==> ps[i] in store && store[ps[i]].key == keys[i]
  }

  ghost predicate EntrySim(e: Entry, rec: Rec, mask: nat) {
    && e.ttl == rec.ttl && R.Holds(e.ring, R.Stamps(rec.ticks), mask + 1)
  }

  ghost predicate LogShape(log: Log) {
    && Distinct(log.order)
    && (forall k | k in log.order :: k in log.recs) && (forall k | k in log.recs :: k in log.order)
  }

  ghost predicate EntriesSim<P>(store: map<P, Entry>, recs: map<Key, Rec>, mask: nat) {
    forall p | p in store :: store[p].key in recs && EntrySim(store[p], recs[store[p].key], mask)
  }

  /** The parts of table and log that correspond. */
  ghost predicate InStep<P>(t: Table<P>, log: Log) {
    && Distinct(t.lru) && (forall p | p in t.store :: p in t.lru)
    && Keyed(t.lru, log.order, t.store)
    && LogShape(log)
    && EntriesSim(t.store, log.recs, t.mask)
  }

  ghost predicate Simulates<P>(t: Table<P>, log: Log, cfg: Config) {
    Valid(t, cfg) && t.mask <= 127 && cfg.listTot > 0 && InStep(t, log)
  }

  ghost predicate OnlyHolder<P>(store: map<P, Entry>, p: P)
    requires p in store
  {
    forall q | q in store :: store[q].key == store[p].key ==> q == p
  }

  /** At most one entry per key is live. */
  lemma UniqueKeys<P>(t: Table<P>, log: Log, p: P)
    requires InStep(t, log) && p in t.store
    ensures OnlyHolder(t.store, p)
  {
    hide EntriesSim, EntrySim;
    forall q | q in t.store && t.store[q].key == t.store[p].key ensures q == p {
      assert p in t.lru && q in t.lru;
      var i :| 0 <= i < |t.lru| && t.lru[i] == p;
      var j :| 0 <= j < |t.lru| && t.lru[j] == q;
      assert log.order[i] == log.order[j];
    }
  }

  /** The chained hash lookup is a plain map lookup. */
  lemma LookupIsMap<P>(t: Table<P>, log: Log, cfg: Config, key: Key, ttl: nat)
    requires Simulates(t, log, cfg)
    ensures Lookup(t, cfg, key, ttl).Some? <==> Found(log, key, ttl)
    ensures var r := Lookup(t, cfg, key, ttl); r.Some? ==> r.value in t.store && t.store[r.value].key == key
  {
    if Found(log, key, ttl) {
      assert key in log.order;
      var i :| 0 <= i < |log.order| && log.order[i] == key;
      var p := t.lru[i];
      assert p in t.buckets[BucketOf(cfg, key)] && Matches(t.store[p], key, ttl);
    }
  }

  lemma TailKeyed<P>(ps: seq<P>, keys: seq<Key>, store: map<P, Entry>, p: P)
    requires Keyed(ps, keys, store) && p in store && OnlyHolder(store, p) && ps != []
    ensures |keys| == |ps| && Keyed(ps[1..], keys[1..], store)
    ensures ps[0] in store && store[ps[0]].key == keys[0] && (ps[0] == p <==> keys[0] == store[p].key)
  {
  }

  lemma ConsKeyed<P>(p: P, key: Key, ps: seq<P>, keys: seq<Key>, store: map<P, Entry>)
    requires Keyed(ps, keys, store) && p in store && store[p].key == key
    ensures Keyed([p] + ps, [key] + keys, store)
  {
  }

  lemma {:induction false} WithoutKeyed<P>(ps: seq<P>, keys: seq<Key>, store: map<P, Entry>, p: P)
    requires Keyed(ps, keys, store) && p in store && OnlyHolder(store, p)
    ensures Keyed(Without(ps, p), Without(keys, store[p].key), store)
  {
    if ps != [] {
      TailKeyed(ps, keys, store, p);
      WithoutKeyed(ps[1..], keys[1..], store, p);
      hide OnlyHolder, Keyed;
      var rest, keyRest := Without(ps[1..], p), Without(keys[1..], store[p].key);
      if ps[0] != p {
        ConsKeyed(ps[0], keys[0], rest, keyRest, store);
      }
    }
  }

  lemma AppendKeyed<P>(ps: seq<P>, keys: seq<Key>, store: map<P, Entry>, p: P, e: Entry)
    requires Keyed(ps, keys, store) && p !in ps
    ensures Keyed(ps + [p], keys + [e.key], store[p := e])
  {
  }

  lemma ForgetShape(log: Log, key: Key)
    requires LogShape(log)
    ensures LogShape(Forget(log, key))
  {
  }

  lemma RememberShape(log: Log, key: Key, rec: Rec)
    requires LogShape(log) && key !in log.recs
    ensures LogShape(Log(log.order + [key], log.recs[key := rec]))
  {
  }

  lemma EntriesSimChanged<P>(store: map<P, Entry>, recs: map<Key, Rec>, mask: nat, p: P, e: Entry, rec: Rec)
    requires EntriesSim(store, recs, mask) && EntrySim(e, rec, mask)
    requires forall q | q in store :: store[q].key == e.key ==> q == p
    ensures EntriesSim(store[p := e], recs[e.key := rec], mask)
  {
  }

  lemma PutSim(e: Entry, rec: Rec, mask: nat, ttl: nat, now: nat)
    requires EntrySim(e, rec, mask) && mask <= 127 && R.PowerOfTwo(mask + 1)
    ensures EntrySim(Entry(e.key, ttl, R.Put(e.ring, mask, At(now))), Rec(ttl, rec.ticks + [now]), mask)
  {
    R.PutHolds(e.ring, R.Stamps(rec.ticks), mask, At(now));
    assert R.Stamps(rec.ticks + [now]) == R.Stamps(rec.ticks) + [At(now)];
  }

  lemma MoveKeyed<P>(ps: seq<P>, keys: seq<Key>, store: map<P, Entry>, p: P, e: Entry)
    requires Keyed(ps, keys, store) && p in store && OnlyHolder(store, p) && e.key == store[p].key && Distinct(ps)
    ensures Keyed(Without(ps, p) + [p], Without(keys, e.key) + [e.key], store[p := e])
  {
    WithoutKeyed(ps, keys, store, p);
    AppendKeyed(Without(ps, p), Without(keys, e.key), store, p, e);
  }

  lemma AgainShape(log: Log, key: Key, ttl: nat, now: nat)
    requires LogShape(log) && key in log.recs
    ensures LogShape(Again(log, key, ttl, now))
  {
    ForgetShape(log, key);
    RememberShape(Forget(log, key), key, Rec(ttl, log.recs[key].ticks + [now]));
    assert (log.recs - {key})[key := Rec(ttl, log.recs[key].ticks + [now])] == Again(log, key, ttl, now).recs;
  }

  lemma RemoveInStep<P>(t: Table<P>, log: Log, cfg: Config, p: P)
    requires InStep(t, log) && p in t.store && |t.buckets| == HashSize(cfg.listTot)
    ensures InStep(Remove(t, cfg, p), Forget(log, t.store[p].key))
  {
    UniqueKeys(t, log, p);
    WithoutKeyed(t.lru, log.order, t.store, p);
    ForgetShape(log, t.store[p].key);
  }

  lemma AppendInStep<P>(t: Table<P>, log: Log, cfg: Config, p: P, e: Entry, rec: Rec)
    requires InStep(t, log) && p !in t.store && |t.buckets| == HashSize(cfg.listTot)
    requires e.key !in log.recs && EntrySim(e, rec, t.mask)
    ensures InStep(Append(t, cfg, p, e), Log(log.order + [e.key], log.recs[e.key := rec]))
  {
    AppendKeyed(t.lru, log.order, t.store, p, e);
    RememberShape(log, e.key, rec);
    EntriesSimChanged(t.store, log.recs, t.mask, p, e, rec);
  }

  lemma NewEntrySim(key: Key, ttl: nat, memory: seq<Stamp>, now: nat)
    requires 0 < |memory| <= 256
    ensures EntrySim(NewEntry(key, ttl, memory, At(now)), Rec(ttl, [now]), |memory| - 1)
  {
    R.StartHolds(memory, At(now));
    assert R.Stamps([now]) == [At(now)];
  }

  lemma TouchInStep<P>(t: Table<P>, log: Log, cfg: Config, p: P, ttl: nat, now: nat)
    requires InStep(t, log) && p in t.store && t.mask <= 127 && R.PowerOfTwo(t.mask + 1) && R.Shape(t.store[p].ring, t.mask)
    ensures InStep(Touch(t, cfg, p, At(now), ttl), Again(log, t.store[p].key, ttl, now))
  {
    var key := t.store[p].key;
    var t', log' := Touch(t, cfg, p, At(now), ttl), Again(log, key, ttl, now);
    UniqueKeys(t, log, p);
    assert LogShape(log') by { AgainShape(log, key, ttl, now); }
    assert Keyed(t'.lru, log'.order, t'.store) by { MoveKeyed(t.lru, log.order, t.store, p, t'.store[p]); }
    assert EntriesSim(t'.store, log'.recs, t'.mask) by {
      PutSim(t.store[p], log.recs[key], t.mask, ttl, now);
      EntriesSimChanged(t.store, log.recs, t.mask, p, t'.store[p], log'.recs[key]);
    }
  }

  lemma RemoveSimulates<P>(t: Table<P>, log: Log, cfg: Config, p: P)
    requires Simulates(t, log, cfg) && p in t.store
    ensures Simulates(Remove(t, cfg, p), Forget(log, t.store[p].key), cfg)
  {
    RemoveValid(t, cfg, p);
    RemoveInStep(t, log, cfg, p);
  }

  lemma AppendSimulates<P>(t: Table<P>, log: Log, cfg: Config, p: P, e: Entry, rec: Rec)
    requires Simulates(t, log, cfg) && p !in t.store && t.entries < cfg.listTot
    requires e.key !in log.recs && EntrySim(e, rec, t.mask) && R.Shape(e.ring, t.mask)
    ensures Simulates(Append(t, cfg, p, e), Log(log.order + [e.key], log.recs[e.key := rec]), cfg)
  {
    AppendValid(t, cfg, p, e);
    AppendInStep(t, log, cfg, p, e, rec);
  }

  lemma TouchSimulates<P>(t: Table<P>, log: Log, cfg: Config, p: P, ttl: nat, now: nat)
    requires Simulates(t, log, cfg) && p in t.store
    ensures Simulates(Touch(t, cfg, p, At(now), ttl), Again(log, t.store[p].key, ttl, now), cfg)
  {
    TouchValid(t, cfg, p, At(now), ttl);
    TouchInStep(t, log, cfg, p, ttl, now);
  }

  // ---------------------------------------------------------------------------
  // Time

  ghost predicate Timed(ticks: seq<nat>, start: nat, now: nat) {
    && ticks != []
    && (forall i, j :: 0 <= i <= j < |ticks| ==> ticks[i] <= ticks[j])
    && start <= ticks[0] && Last(ticks) <= now
  }

  function LastUse(recs: map<Key, Rec>, key: Key): nat {
    if key in recs && recs[key].ticks != [] then Last(recs[key].ticks) else 0
  }

  /** The keys run from least to most recently used. */
  ghost predicate Aged(order: seq<Key>, recs: map<Key, Rec>) {
    order == [] || ((forall k | k in order :: LastUse(recs, order[0]) <= LastUse(recs, k)) && Aged(order[1..], recs))
  }

  ghost predicate AllTimed(recs: map<Key, Rec>, start: nat, now: nat) {
    forall k | k in recs :: Timed(recs[k].ticks, start, now)
  }

  ghost predicate Chronicle(log: Log, start: nat, now: nat) {
    AllTimed(log.recs, start, now) && Aged(log.order, log.recs)
  }

  lemma {:induction false} WithoutAged(order: seq<Key>, recs: map<Key, Rec>, key: Key)
    requires Aged(order, recs)
    ensures Aged(Without(order, key), recs)
  {
    if order != [] {
      WithoutAged(order[1..], recs, key);
      var rest := Without(order[1..], key);
      assert ([order[0]] + rest)[1..] == rest;
    }
  }

  lemma {:induction false} AppendAged(order: seq<Key>, recs: map<Key, Rec>, key: Key, rec: Rec)
    requires Aged(order, recs) && key !in order && rec.ticks != []
    requires forall k | k in order :: LastUse(recs, k) <= Last(rec.ticks)
    ensures Aged(order + [key], recs[key := rec])
  {
    if order != [] {
      AppendAged(order[1..], recs, key, rec);
      assert (order + [key])[1..] == order[1..] + [key];
    } else {
      var one := order + [key];
      assert one[0] == key && one[1..] == [] && Aged(one[1..], recs[key := rec]);
    }
  }

  lemma {:induction false} ForgottenAged(order: seq<Key>, recs: map<Key, Rec>, key: Key)
    requires Aged(order, recs) && key !in order
    ensures Aged(order, recs - {key})
  {
    if order != [] {
      ForgottenAged(order[1..], recs, key);
    }
  }

  lemma ForgetChronicle(log: Log, key: Key, start: nat, now: nat)
    requires Chronicle(log, start, now)
    ensures Chronicle(Forget(log, key), start, now)
  {
    WithoutAged(log.order, log.recs, key);
    ForgottenAged(Without(log.order, key), log.recs, key);
  }

  /** Using a key now puts it last in order of use. */
  lemma UseChronicle(log: Log, key: Key, rec: Rec, start: nat, now: nat)
    requires Chronicle(log, start, now)
    requires Timed(rec.ticks, start, now) && Last(rec.ticks) == now
    ensures Chronicle(Log(Without(log.order, key) + [key], log.recs[key := rec]), start, now)
  {
    WithoutAged(log.order, log.recs, key);
    forall k | k in Without(log.order, key) ensures LastUse(log.recs, k) <= now {
      assert k in log.recs ==> Timed(log.recs[k].ticks, start, now);
    }
    AppendAged(Without(log.order, key), log.recs, key, rec);
  }

  lemma RepeatTimed(ticks: seq<nat>, start: nat, now: nat)
    requires Timed(ticks, start, now)
    ensures Timed(ticks + [now], start, now)
  {
    assert Last(ticks + [now]) == now;
  }

  // ---------------------------------------------------------------------------
  // One packet

  /** A rule may be run against a ring that has a slot for every hit it asks for. */
  predicate Serves(mask: nat, rule: Rule) {
    Accepted(rule) && R.Need(rule.hitCount) <= mask + 1
  }

  /** stamps[index - 1] of an entry is its last use. */
  lemma NewestIsLastUse(e: Entry, rec: Rec, mask: nat, cfg: Config, now: nat, span: nat)
    requires EntrySim(e, rec, mask) && mask <= 127 && rec.ticks != [] && span < UINT
    requires Last(rec.ticks) <= now <= Last(rec.ticks) + HALF
    ensures 1 <= e.ring.index <= |e.ring.slots|
    ensures TimeAfter(Cutoff(At(now), span), TableModel.Newest(e, cfg)) <==> Expired(rec, now, span)
  {
    R.ContentsAreNewest(e.ring, R.Stamps(rec.ticks), mask + 1);
    WindowIsRealTime(Last(rec.ticks), now, span);
  }

  lemma OldestInStep<P>(t: Table<P>, log: Log, cfg: Config)
    requires Simulates(t, log, cfg) && t.lru != []
    ensures log.order != [] && log.order[0] in log.recs && t.lru[0] in t.store && t.store[t.lru[0]].key == log.order[0]
    ensures EntrySim(t.store[t.lru[0]], log.recs[log.order[0]], t.mask) && t.mask <= 127
  {
    assert log.order[0] in log.order;
  }

  /** Reap takes the head of the LRU list exactly if the key used longest ago has expired. */
  lemma ReapIsExpiry<P>(t: Table<P>, log: Log, cfg: Config, start: nat, now: nat, span: nat)
    requires Simulates(t, log, cfg) && Chronicle(log, start, now) && now <= start + HALF && span < UINT
    requires t.lru != []
    ensures log.order != [] && log.order[0] in log.recs && t.lru[0] in t.store && t.store[t.lru[0]].key == log.order[0]
    ensures t.store[t.lru[0]].ring.index <= |t.store[t.lru[0]].ring.slots|
    ensures TimeAfter(Cutoff(At(now), span), TableModel.Newest(t.store[t.lru[0]], cfg)) <==> Expired(log.recs[log.order[0]], now, span)
  {
    OldestInStep(t, log, cfg);
    hide Simulates, EntrySim, Cutoff, At, TimeAfter, Expired, TableModel.Newest;
    assert Timed(log.recs[log.order[0]].ticks, start, now);
    NewestIsLastUse(t.store[t.lru[0]], log.recs[log.order[0]], t.mask, cfg, now, span);
  }

  lemma ReapSimulates<P>(t: Table<P>, log: Log, cfg: Config, start: nat, now: nat, span: nat)
    requires Simulates(t, log, cfg) && Chronicle(log, start, now) && now <= start + HALF && span < UINT
    requires t.lru != []
    ensures Simulates(Reap(t, cfg, Cutoff(At(now), span)), Expire(log, now, span), cfg)
    ensures Chronicle(Expire(log, now, span), start, now)
  {
    ReapIsExpiry(t, log, cfg, start, now, span);
    hide Simulates, Chronicle, Remove, Forget, Expired, TableModel.Newest;
    if Expired(log.recs[log.order[0]], now, span) {
      RemoveSimulates(t, log, cfg, t.lru[0]);
      ForgetChronicle(log, log.order[0], start, now);
    }
  }

  lemma EvictSimulates<P>(t: Table<P>, log: Log, cfg: Config, start: nat, now: nat)
    requires Simulates(t, log, cfg) && Chronicle(log, start, now)
    ensures Linked(t, cfg) && Simulates(MakeRoom(t, cfg), Evict(log, cfg), cfg) && Chronicle(Evict(log, cfg), start, now)
    ensures MakeRoom(t, cfg).entries < cfg.listTot && MakeRoom(t, cfg).mask == t.mask < 256
    ensures MakeRoom(t, cfg).store.Keys <= t.store.Keys && Evict(log, cfg).recs.Keys <= log.recs.Keys
  {
    assert t.entries == |t.lru| == |log.order| <= cfg.listTot && cfg.listTot > 0;
    if t.entries >= cfg.listTot {
      assert t.lru[0] in t.store && t.store[t.lru[0]].key == log.order[0];
      hide Simulates, Chronicle, Valid;
      RemoveSimulates(t, log, cfg, t.lru[0]);
      ForgetChronicle(log, log.order[0], start, now);
    }
  }

  lemma NewChronicle(log: Log, key: Key, ttl: nat, start: nat, now: nat)
    requires LogShape(log) && Chronicle(log, start, now) && key !in log.recs && start <= now
    ensures Chronicle(Remember(log, key, ttl, now), start, now)
  {
    UseChronicle(log, key, Rec(ttl, [now]), start, now);
    WithoutAbsent(log.order, key);
  }

  lemma {:induction false} WithoutAbsent<T>(s: seq<T>, x: T)
    requires x !in s
    ensures Without(s, x) == s
  {
    if s != [] {
      WithoutAbsent(s[1..], x);
    }
  }

  lemma ShapeInStep<P>(t: Table<P>, log: Log, cfg: Config)
    requires Simulates(t, log, cfg)
    ensures LogShape(log)
  {
  }

  lemma AdmitSimulates<P>(t: Table<P>, log: Log, cfg: Config, p: P, key: Key, ttl: nat, memory: seq<Stamp>,
                          start: nat, now: nat)
    requires Simulates(t, log, cfg) && Chronicle(log, start, now) && start <= now
    requires p !in t.store && key !in log.recs && |memory| == t.mask + 1
    ensures Simulates(Insert(t, cfg, p, NewEntry(key, ttl, memory, At(now))), Admit(log, cfg, key, ttl, now), cfg)
    ensures Chronicle(Admit(log, cfg, key, ttl, now), start, now)
  {
    EvictSimulates(t, log, cfg, start, now);
    hide Simulates, Chronicle, MakeRoom, Evict, EntrySim, LogShape;
    NewEntrySim(key, ttl, memory, now);
    ShapeInStep(MakeRoom(t, cfg), Evict(log, cfg), cfg);
    AppendSimulates(MakeRoom(t, cfg), Evict(log, cfg), cfg, p, NewEntry(key, ttl, memory, At(now)), Rec(ttl, [now]));
    NewChronicle(Evict(log, cfg), key, ttl, start, now);
  }

  lemma AgainChronicle(log: Log, key: Key, ttl: nat, start: nat, now: nat)
    requires Chronicle(log, start, now) && key in log.recs
    ensures Chronicle(Again(log, key, ttl, now), start, now)
  {
    RepeatTimed(log.recs[key].ticks, start, now);
    UseChronicle(log, key, Rec(ttl, log.recs[key].ticks + [now]), start, now);
  }

  lemma AgainSimulates<P>(t: Table<P>, log: Log, cfg: Config, p: P, ttl: nat, start: nat, now: nat)
    requires Simulates(t, log, cfg) && Chronicle(log, start, now) && start <= now && p in t.store
    ensures Simulates(Touch(t, cfg, p, At(now), ttl), Again(log, t.store[p].key, ttl, now), cfg)
    ensures Chronicle(Again(log, t.store[p].key, ttl, now), start, now)
  {
    TouchSimulates(t, log, cfg, p, ttl, now);
    AgainChronicle(log, t.store[p].key, ttl, start, now);
  }

  lemma HitMeansRecent(rule: Rule, e: Entry, rec: Rec, mask: nat, start: nat, now: nat, span: nat)
    requires EntrySim(e, rec, mask) && mask <= 127 && Timed(rec.ticks, start, now) && now <= start + HALF
    requires Serves(mask, rule) && span < UINT
    ensures HitBy(rule, e, Cutoff(At(now), span))
            <==> R.RecentTicks(rec.ticks, now, span, rule.seconds) >= R.Need(rule.hitCount)
  {
    assert R.Timeline(rec.ticks, now);
    HitInTime(rule, e, rec, mask, now, span);
  }

  /** now may also lie before the last ticks. */
  lemma HitInTime(rule: Rule, e: Entry, rec: Rec, mask: nat, now: nat, span: nat)
    requires EntrySim(e, rec, mask) && mask <= 127 && R.Timeline(rec.ticks, now) && Serves(mask, rule) && span < UINT
    ensures e.ring.nstamps <= |e.ring.slots|
    ensures HitBy(rule, e, Cutoff(At(now), span))
            <==> R.RecentTicks(rec.ticks, now, span, rule.seconds) >= R.Need(rule.hitCount)
  {
    R.VerdictIsHistory(e.ring, rec.ticks, mask + 1, now, span, rule.seconds, rule.hitCount);
  }

  function Kept<P(==)>(t: Table<P>, cfg: Config, rule: Rule, cutoff: Stamp): Table<P>
    requires Valid(t, cfg) && (rule.flags.reap ==> t.lru != [])
  {
    if rule.flags.reap then Reap(t, cfg, cutoff) else t
  }

  function LogKept(log: Log, rule: Rule, now: nat, span: nat): Log {
    if rule.flags.reap then Expire(log, now, span) else log
  }

  lemma KeptSimulates<P>(t: Table<P>, log: Log, cfg: Config, rule: Rule, q: P, start: nat, now: nat, span: nat)
    requires Simulates(t, log, cfg) && Chronicle(log, start, now) && now <= start + HALF && span < UINT
    requires q in t.store && t.lru != []
    ensures var u, m := Kept(t, cfg, rule, Cutoff(At(now), span)), LogKept(log, rule, now, span);
            && Simulates(u, m, cfg) && Chronicle(m, start, now)
            && (q in u.store <==> t.store[q].key in m.recs)
            && (q in u.store ==> u.store[q] == t.store[q])
  {
    if rule.flags.reap {
      ReapSimulates(t, log, cfg, start, now, span);
    }
    KeptTogether(t, log, Kept(t, cfg, rule, Cutoff(At(now), span)), LogKept(log, rule, now, span), q);
  }

  lemma NeverOutside<P>(t: Table<P>, cfg: Config)
    requires Valid(t, cfg) && t.mask < 255
    ensures !Outside(t)
  {
  }

  lemma FoundInStep<P>(t: Table<P>, log: Log, cfg: Config, q: P)
    requires Simulates(t, log, cfg) && q in t.store
    ensures t.store[q].key in log.recs && EntrySim(t.store[q], log.recs[t.store[q].key], t.mask)
    ensures Valid(t, cfg) && t.mask <= 127 && t.lru != [] && t.store[q].ring.nstamps <= |t.store[q].ring.slots|
    ensures !Outside(t)
  {
    NeverOutside(t, cfg);
  }

  /** CHECK and UPDATE on a found entry. */
  lemma TestSimulates<P>(t: Table<P>, log: Log, cfg: Config, rule: Rule, q: P, ttl: nat, start: nat, now: nat)
    requires Simulates(t, log, cfg) && Chronicle(log, start, now) && start <= now <= start + HALF
    requires Serves(t.mask, rule) && q in t.store && t.store[q].key in log.recs && Valid(t, cfg)
    ensures var k, l := TestFound(t, cfg, rule, q, ttl, At(now)), LogTest(log, cfg, rule, t.store[q].key, ttl, now);
            && k.verdict == l.verdict && !k.outside && k.dangling == l.dangling
            && Simulates(k.table, l.log, cfg) && Chronicle(l.log, start, now)
  {
    FoundInStep(t, log, cfg, q);
    var span, key := Span(rule.seconds, cfg.hz), t.store[q].key;
    assert Timed(log.recs[key].ticks, start, now);
    hide Simulates, Chronicle, Valid, Outside, EntrySim, HitBy, Touch, Again, Cutoff, Span, Timed, Reap, Expire, R.RecentTicks;
    HitMeansRecent(rule, t.store[q], log.recs[key], t.mask, start, now, span);
    KeptSimulates(t, log, cfg, rule, q, start, now, span);
    var u, m := Kept(t, cfg, rule, Cutoff(At(now), span)), LogKept(log, rule, now, span);
    if q in u.store {
      AgainSimulates(u, m, cfg, q, ttl, start, now);
    }
  }

  /** A removal takes the entry away exactly when it takes the key away. */
  lemma KeptTogether<P>(t: Table<P>, log: Log, u: Table<P>, m: Log, q: P)
    requires InStep(t, log) && InStep(u, m) && q in t.store
    requires forall p | p in u.store :: p in t.store && u.store[p] == t.store[p]
    ensures q in u.store <==> t.store[q].key in m.recs
  {
    UniqueKeys(t, log, q);
    if t.store[q].key in m.recs {
      assert t.store[q].key in m.order;
      var i :| 0 <= i < |m.order| && m.order[i] == t.store[q].key;
      assert u.lru[i] in u.store;
    }
  }

  /** The kernel's match and the reference machine give the same answer and stay in step. */
  lemma MatchSimulates<P>(t: Table<P>, log: Log, cfg: Config, rule: Rule, key: Key, ttl: nat,
                          start: nat, now: nat, p: P, memory: seq<Stamp>)
    requires Simulates(t, log, cfg) && Chronicle(log, start, now) && start <= now <= start + HALF
    requires Serves(t.mask, rule) && |memory| == t.mask + 1 && p !in t.store
    ensures var k, l := Match(t, cfg, rule, key, ttl, At(now), Memory(p, memory)), LogMatch(log, cfg, rule, key, ttl, now);
            && k.verdict == l.verdict && !k.outside && k.dangling == l.dangling
            && Simulates(k.table, l.log, cfg) && Chronicle(l.log, start, now)
  {
    hide Chronicle, TestFound, LogTest, Touch, Again, Forget, Remove, Admit, Insert, EntrySim, HitBy, Lookup, LogShape;
    var f := rule.flags;
    var asked := if f.ttl then ttl else 0;
    LookupIsMap(t, log, cfg, key, asked);
    match Lookup(t, cfg, key, asked)
    case None =>
      if f.set_ {
        assert key !in log.recs;
        AdmitSimulates(t, log, cfg, p, key, ttl, memory, start, now);
      }
    case Some(q) =>
      if f.set_ {
        AgainSimulates(t, log, cfg, q, ttl, start, now);
      } else if f.remove {
        RemoveSimulates(t, log, cfg, q);
        ForgetChronicle(log, key, start, now);
      } else {
        FoundInStep(t, log, cfg, q);
        TestSimulates(t, log, cfg, rule, q, ttl, start, now);
      }
  }

  lemma {:induction false} NoneRecent(ticks: seq<nat>, now: nat, span: nat, seconds: nat)
    requires seconds != 0 && forall i :: 0 <= i < |ticks| ==> ticks[i] + span < now
    ensures R.RecentTicks(ticks, now, span, seconds) == 0
  {
    if ticks != [] {
      NoneRecent(ticks[1..], now, span, seconds);
    }
  }

  lemma LogDanglingExactly(log: Log, cfg: Config, rule: Rule, key: Key, ttl: nat, start: nat, now: nat)
    requires LogShape(log) && Chronicle(log, start, now) && Accepted(rule)
    ensures LogMatch(log, cfg, rule, key, ttl, now).dangling <==> Stale(log, cfg, rule, key, ttl, now)
  {
    hide Again, Admit, Aged;
    if Found(log, key, if rule.flags.ttl then ttl else 0) && rule.flags.reap {
      var ticks, span := log.recs[key].ticks, Span(rule.seconds, cfg.hz);
      assert Timed(ticks, start, now) && key in log.order;
      if Last(ticks) + span < now {
        NoneRecent(ticks, now, span, rule.seconds);
      } else {
        assert ticks[|ticks| - 1] + span >= now;
      }
    }
  }

  /** An inverted UPDATE rule with REAP meets the least recently used entry with every stamp out
      of the window. */
  ghost predicate Stale(log: Log, cfg: Config, rule: Rule, key: Key, ttl: nat, now: nat) {
    && rule.flags.update && rule.flags.reap && rule.invert
    && Found(log, key, if rule.flags.ttl then ttl else 0)
    && log.order != [] && log.order[0] == key
    && forall i :: 0 <= i < |log.recs[key].ticks|
         ==> log.recs[key].ticks[i] + Span(rule.seconds, cfg.hz) < now
  }

  /** The match updates an entry its own reap has freed exactly in the stale case, so a rule that
      is not inverted never does. */
  lemma DanglingExactly<P>(t: Table<P>, log: Log, cfg: Config, rule: Rule, key: Key, ttl: nat,
                           start: nat, now: nat, p: P, memory: seq<Stamp>)
    requires Simulates(t, log, cfg) && Chronicle(log, start, now) && start <= now <= start + HALF
    requires Serves(t.mask, rule) && |memory| == t.mask + 1 && p !in t.store
    ensures Match(t, cfg, rule, key, ttl, At(now), Memory(p, memory)).dangling <==> Stale(log, cfg, rule, key, ttl, now)
  {
    MatchSimulates(t, log, cfg, rule, key, ttl, start, now, p, memory);
    LogDanglingExactly(log, cfg, rule, key, ttl, start, now);
  }

  /** UPDATE with REAP, inverted. */
  const INVERTED := Rule("r", Flags(false, true, false, false, false, true, false), 1, 0, true)

  lemma SingleSimulates<P>(cfg: Config, mask: nat, p: P, key: Key, memory: seq<Stamp>, tick: nat) returns (log: Log)
    requires mask <= 127 && R.PowerOfTwo(mask + 1) && |memory| == mask + 1 && cfg.listTot > 0
    ensures Simulates(Single(cfg, mask, p, key, memory, [At(tick)]), log, cfg) && Chronicle(log, tick, tick)
    ensures log == Log([key], map[key := Rec(0, [tick])])
  {
    var e := NewEntry(key, 0, memory, At(tick));
    EmptySimulates<P>(cfg, mask);
    NewEntrySim(key, 0, memory, tick);
    assert EMPTY.order + [key] == [key];
    log := Remember(EMPTY, key, 0, tick);
    NewChronicle(EMPTY, key, 0, tick, tick);
    assert R.Shape(e.ring, mask);
    hide Simulates, Chronicle, EntrySim, R.Shape;
    AppendSimulates(Empty<P>(cfg, mask), EMPTY, cfg, p, e, Rec(0, [tick]));
  }

  lemma SeenOnceIsStale(cfg: Config, key: Key)
    ensures Stale(Log([key], map[key := Rec(0, [0])]), cfg, INVERTED, key, 0, Span(1, cfg.hz) + 1)
  {
  }

  /** A case of it: an address seen once, and met again by such a rule one tick after it has left the window. */
  lemma DanglingHappens<P>(cfg: Config, mask: nat, p: P, q: P, key: Key, memory: seq<Stamp>)
    requires mask <= 127 && R.PowerOfTwo(mask + 1) && |memory| == mask + 1 && cfg.listTot > 0 && q != p
    ensures var t := Single(cfg, mask, p, key, memory, [At(0)]);
            && Accepted(INVERTED) && Valid(t, cfg) && q !in t.store
            && Match(t, cfg, INVERTED, key, 0, At(Span(1, cfg.hz) + 1), Memory(q, memory)).dangling
  {
    hide Valid, InStep, Match, Stale, Chronicle, R.Filled, At, Span;
    var t, now := Single(cfg, mask, p, key, memory, [At(0)]), Span(1, cfg.hz) + 1;
    var log := SingleSimulates(cfg, mask, p, key, memory, 0);
    LaterChronicle(log, 0, 0, now);
    assert Valid(t, cfg) && t.mask == mask && t.store.Keys == {p};
    SeenOnceIsStale(cfg, key);
    DanglingExactly(t, log, cfg, INVERTED, key, 0, 0, now, q, memory);
  }

  // ---------------------------------------------------------------------------
  // Runs

  datatype Op =
    | Packet(rule: Rule, key: Key, ttl: nat)
    | AddAddress(key: Key)
    | RemoveAddress(key: Key)
    | FlushTable
    | Grow(mask: nat)

  /** An operation at a tick, with the memory an allocation would get. */
  datatype Event<P> = Event(op: Op, tick: nat, p: P, memory: seq<Stamp>)

  ghost predicate Allowed<P>(t: Table<P>, cfg: Config, ev: Event<P>) {
    && Valid(t, cfg) && ev.p !in t.store && |ev.memory| == t.mask + 1
    && match ev.op
       case Packet(rule, _, _) => Serves(t.mask, rule)
       case Grow(mask) => mask <= 127 && R.PowerOfTwo(mask + 1)
       case _ => true
  }

  function Do<P(==)>(t: Table<P>, cfg: Config, ev: Event<P>): Outcome<P>
    requires Allowed(t, cfg, ev)
  {
    match ev.op
    case Packet(rule, key, ttl) => Match(t, cfg, rule, key, ttl, At(ev.tick), Memory(ev.p, ev.memory))
    case AddAddress(key) => Outcome(ProcAdd(t, cfg, key, At(ev.tick), Memory(ev.p, ev.memory)), true, false, false, false)
    case RemoveAddress(key) => Outcome(ProcRemove(t, cfg, key), true, false, false, false)
    case FlushTable => Outcome(Empty(cfg, t.mask), true, false, false, false)
    case Grow(mask) => Outcome(GrowTo(t, cfg, mask), true, false, false, false)
  }

  /** The reference machine; growth empties the log when the kernel's table is flushed. */
  function LogDo<P>(log: Log, cfg: Config, mask: nat, ev: Event<P>): LogOutcome {
    match ev.op
    case Packet(rule, key, ttl) => LogMatch(log, cfg, rule, key, ttl, ev.tick)
    case AddAddress(key) =>
      LogOutcome(if key in log.recs then Again(log, key, log.recs[key].ttl, ev.tick)
                 else Admit(log, cfg, key, 0, ev.tick), true, false)
    case RemoveAddress(key) => LogOutcome(if key in log.recs then Forget(log, key) else log, true, false)
    case FlushTable => LogOutcome(EMPTY, true, false)
    case Grow(m) => LogOutcome(if m > mask then EMPTY else log, true, false)
  }

  /** What a packet was told, and whether its own reap freed the entry it went on to update. */
  datatype Answer = Answer(verdict: bool, dangling: bool)

  /** Every operation is allowed where it is made. A run ends with the first use of freed memory. */
  ghost predicate Lawful<P>(t: Table<P>, cfg: Config, evs: seq<Event<P>>)
    decreases evs
  {
    evs == [] || (Allowed(t, cfg, evs[0]) && (Do(t, cfg, evs[0]).dangling || Lawful(Do(t, cfg, evs[0]).table, cfg, evs[1..])))
  }

  ghost function Answers<P>(t: Table<P>, cfg: Config, evs: seq<Event<P>>): seq<Answer>
    requires Lawful(t, cfg, evs)
    decreases evs
  {
    if evs == [] then [] else
      var out := Do(t, cfg, evs[0]);
      [Answer(out.verdict, out.dangling)] + if out.dangling then [] else Answers(out.table, cfg, evs[1..])
  }

  function MaskAfter(mask: nat, op: Op): nat {
    if op.Grow? && op.mask > mask then op.mask else mask
  }

  function LogAnswers<P>(log: Log, cfg: Config, mask: nat, evs: seq<Event<P>>): seq<Answer>
    decreases evs
  {
    if evs == [] then [] else
      var out := LogDo(log, cfg, mask, evs[0]);
      [Answer(out.verdict, out.dangling)] + if out.dangling then [] else LogAnswers(out.log, cfg, MaskAfter(mask, evs[0].op), evs[1..])
  }

  ghost predicate InOrder<P>(evs: seq<Event<P>>, start: nat, now: nat) {
    && now <= start + HALF
    && (evs != [] ==> now <= evs[0].tick && InOrder(evs[1..], start, evs[0].tick))
  }

  lemma LaterChronicle(log: Log, start: nat, now: nat, later: nat)
    requires Chronicle(log, start, now) && now <= later
    ensures Chronicle(log, start, later)
  {
  }

  lemma ProcAddSimulates<P>(t: Table<P>, log: Log, cfg: Config, key: Key, p: P, memory: seq<Stamp>, start: nat, now: nat)
    requires Simulates(t, log, cfg) && Chronicle(log, start, now) && start <= now
    requires p !in t.store && |memory| == t.mask + 1
    ensures var l := if key in log.recs then Again(log, key, log.recs[key].ttl, now) else Admit(log, cfg, key, 0, now);
            Simulates(ProcAdd(t, cfg, key, At(now), Memory(p, memory)), l, cfg) && Chronicle(l, start, now)
  {
    LookupIsMap(t, log, cfg, key, 0);
    match Lookup(t, cfg, key, 0)
    case None => AdmitSimulates(t, log, cfg, p, key, 0, memory, start, now);
    case Some(q) => AgainSimulates(t, log, cfg, q, t.store[q].ttl, start, now);
  }

  lemma ProcRemoveSimulates<P>(t: Table<P>, log: Log, cfg: Config, key: Key, start: nat, now: nat)
    requires Simulates(t, log, cfg) && Chronicle(log, start, now)
    ensures var l := if key in log.recs then Forget(log, key) else log;
            Simulates(ProcRemove(t, cfg, key), l, cfg) && Chronicle(l, start, now)
  {
    LookupIsMap(t, log, cfg, key, 0);
    match Lookup(t, cfg, key, 0)
    case None =>
    case Some(q) =>
      RemoveSimulates(t, log, cfg, q);
      ForgetChronicle(log, key, start, now);
  }

  lemma MaskKept<P>(t: Table<P>, cfg: Config, ev: Event<P>)
    requires Allowed(t, cfg, ev)
    ensures Do(t, cfg, ev).table.mask == MaskAfter(t.mask, ev.op)
  {
    hide Valid, Lookup, HitBy, Cutoff, Span, Accepted, Outside;
  }

  lemma PacketSimulates<P>(t: Table<P>, log: Log, cfg: Config, ev: Event<P>, start: nat)
    requires ev.op.Packet? && Allowed(t, cfg, ev)
    requires Simulates(t, log, cfg) && Chronicle(log, start, ev.tick) && start <= ev.tick <= start + HALF
    ensures var k, l := Do(t, cfg, ev), LogDo(log, cfg, t.mask, ev);
            && k.verdict == l.verdict && !k.outside && k.dangling == l.dangling
            && Simulates(k.table, l.log, cfg) && Chronicle(l.log, start, ev.tick)
  {
    var rule, key, ttl := ev.op.rule, ev.op.key, ev.op.ttl;
    MatchSimulates(t, log, cfg, rule, key, ttl, start, ev.tick, ev.p, ev.memory);
  }

  lemma DoSimulates<P>(t: Table<P>, log: Log, cfg: Config, ev: Event<P>, start: nat)
    requires Simulates(t, log, cfg) && Chronicle(log, start, ev.tick) && start <= ev.tick <= start + HALF
    requires Allowed(t, cfg, ev)
    ensures var k, l := Do(t, cfg, ev), LogDo(log, cfg, t.mask, ev);
            && k.verdict == l.verdict && !k.outside && k.dangling == l.dangling
            && Simulates(k.table, l.log, cfg) && Chronicle(l.log, start, ev.tick)
  {
    match ev.op
    case Packet(_, _, _) => PacketSimulates(t, log, cfg, ev, start);
    case AddAddress(key) => ProcAddSimulates(t, log, cfg, key, ev.p, ev.memory, start, ev.tick);
    case RemoveAddress(key) => ProcRemoveSimulates(t, log, cfg, key, start, ev.tick);
    case FlushTable => EmptySimulates<P>(cfg, t.mask);
    case Grow(mask) => EmptySimulates<P>(cfg, mask);
  }

  lemma EmptySimulates<P>(cfg: Config, mask: nat)
    requires mask <= 127 && R.PowerOfTwo(mask + 1) && cfg.listTot > 0
    ensures Simulates(Empty<P>(cfg, mask), EMPTY, cfg)
  {
  }

  lemma {:induction false} RunSimulates<P>(t: Table<P>, log: Log, cfg: Config, evs: seq<Event<P>>, start: nat, now: nat)
    requires Simulates(t, log, cfg) && Chronicle(log, start, now) && start <= now
    requires Lawful(t, cfg, evs) && InOrder(evs, start, now)
    ensures Answers(t, cfg, evs) == LogAnswers(log, cfg, t.mask, evs)
    decreases evs
  {
    if evs != [] {
      var ev := evs[0];
      LaterChronicle(log, start, now, ev.tick);
      DoSimulates(t, log, cfg, ev, start);
      MaskKept(t, cfg, ev);
      hide Simulates, Chronicle, Allowed, Do, LogDo;
      if !Do(t, cfg, ev).dangling {
        RunSimulates(Do(t, cfg, ev).table, LogDo(log, cfg, t.mask, ev).log, cfg, evs[1..], start, ev.tick);
      }
    }
  }

  /** Over every run that spans at most half the counter's range, the hashed, ring-buffered table answers exactly as
      the map that remembers everything, up to and including the first use of freed memory if there is one. */
  lemma RunsAgree<P>(cfg: Config, mask: nat, evs: seq<Event<P>>, start: nat)
    requires mask <= 127 && R.PowerOfTwo(mask + 1) && cfg.listTot > 0
    requires Lawful(Empty<P>(cfg, mask), cfg, evs) && InOrder(evs, start, start)
    ensures Answers(Empty<P>(cfg, mask), cfg, evs) == LogAnswers(EMPTY, cfg, mask, evs)
  {
    EmptySimulates<P>(cfg, mask);
    RunSimulates(Empty<P>(cfg, mask), EMPTY, cfg, evs, start, start);
  }

  // ---------------------------------------------------------------------------
  // What a run does to one address

  /** A lawful run without a use of freed memory. */
  ghost predicate Safe<P>(t: Table<P>, cfg: Config, evs: seq<Event<P>>)
    decreases evs
  {
    evs == [] || (Allowed(t, cfg, evs[0]) && !Do(t, cfg, evs[0]).dangling && Safe(Do(t, cfg, evs[0]).table, cfg, evs[1..]))
  }

  ghost function TableAfter<P>(t: Table<P>, cfg: Config, evs: seq<Event<P>>): Table<P>
    requires Safe(t, cfg, evs)
    decreases evs
  {
    if evs == [] then t else TableAfter(Do(t, cfg, evs[0]).table, cfg, evs[1..])
  }

  function LogAfter<P>(log: Log, cfg: Config, mask: nat, evs: seq<Event<P>>): Log
    decreases evs
  {
    if evs == [] then log else LogAfter(LogDo(log, cfg, mask, evs[0]).log, cfg, MaskAfter(mask, evs[0].op), evs[1..])
  }

  /** The address is not removed, evicted, reaped or flushed. */
  predicate Stays<P>(log: Log, cfg: Config, mask: nat, evs: seq<Event<P>>, key: Key)
    decreases evs
  {
    key in log.recs && (evs == [] || Stays(LogDo(log, cfg, mask, evs[0]).log, cfg, MaskAfter(mask, evs[0].op), evs[1..], key))
  }

  /** An operation that may stamp the address. */
  predicate Stamping(op: Op, verdict: bool, key: Key) {
    match op
    case Packet(rule, k, _) => k == key && (rule.flags.set_ || (rule.flags.update && verdict))
    case AddAddress(k) => k == key
    case _ => false
  }

  /** How many operations of the run may stamp the address. */
  function Touches<P>(log: Log, cfg: Config, mask: nat, evs: seq<Event<P>>, key: Key): nat
    decreases evs
  {
    if evs == [] then 0 else
      var out := LogDo(log, cfg, mask, evs[0]);
      (if Stamping(evs[0].op, out.verdict, key) then 1 else 0) + Touches(out.log, cfg, MaskAfter(mask, evs[0].op), evs[1..], key)
  }

  /** r' is r with fewer than n further stamps; only a stamp changes the ttl. */
  predicate Extends(r: Rec, r': Rec, n: nat) {
    && |r.ticks| <= |r'.ticks| < |r.ticks| + n && r'.ticks[..|r.ticks|] == r.ticks
    && (|r'.ticks| == |r.ticks| ==> r'.ttl == r.ttl)
  }

  /** One operation that leaves the address in the map adds at most the stamp it counts for. */
  lemma OneOperation<P>(log: Log, cfg: Config, mask: nat, ev: Event<P>, key: Key)
    requires key in log.recs && (ev.op.Packet? ==> Accepted(ev.op.rule))
    ensures var out := LogDo(log, cfg, mask, ev);
            key in out.log.recs ==>
              && Extends(log.recs[key], out.log.recs[key], if Stamping(ev.op, out.verdict, key) then 2 else 1)
              && MaskAfter(mask, ev.op) == mask
  {
  }

  lemma ExtendsOn(a: Rec, b: Rec, c: Rec, n: nat, m: nat)
    requires n > 0 && m > 0 && Extends(a, b, n) && Extends(b, c, m)
    ensures Extends(a, c, n + m - 1)
  {
    assert c.ticks[..|b.ticks|][..|a.ticks|] == c.ticks[..|a.ticks|];
  }

  lemma AllowedAccepts<P>(t: Table<P>, cfg: Config, ev: Event<P>)
    requires Allowed(t, cfg, ev)
    ensures ev.op.Packet? ==> Accepted(ev.op.rule)
  {
  }

  lemma {:induction false} StaysExtends<P>(t: Table<P>, log: Log, cfg: Config, evs: seq<Event<P>>, key: Key)
    requires Safe(t, cfg, evs) && Stays(log, cfg, t.mask, evs, key)
    ensures TableAfter(t, cfg, evs).mask == t.mask && key in LogAfter(log, cfg, t.mask, evs).recs
    ensures Extends(log.recs[key], LogAfter(log, cfg, t.mask, evs).recs[key], Touches(log, cfg, t.mask, evs, key) + 1)
    decreases evs
  {
    hide Allowed, Do, LogDo, Stamping, Accepted, MaskAfter;
    if evs != [] {
      var out, u := LogDo(log, cfg, t.mask, evs[0]), Do(t, cfg, evs[0]).table;
      AllowedAccepts(t, cfg, evs[0]);
      OneOperation(log, cfg, t.mask, evs[0], key);
      MaskKept(t, cfg, evs[0]);
      var n, m := if Stamping(evs[0].op, out.verdict, key) then 2 else 1, Touches(out.log, cfg, t.mask, evs[1..], key);
      StaysExtends(u, out.log, cfg, evs[1..], key);
      hide Extends;
      ExtendsOn(log.recs[key], out.log.recs[key], LogAfter(log, cfg, t.mask, evs).recs[key], n, m + 1);
    }
  }

  lemma {:induction false} SafeSimulates<P>(t: Table<P>, log: Log, cfg: Config, evs: seq<Event<P>>, start: nat, now: nat)
    requires Simulates(t, log, cfg) && Chronicle(log, start, now) && start <= now
    requires Safe(t, cfg, evs) && InOrder(evs, start, now)
    ensures Simulates(TableAfter(t, cfg, evs), LogAfter(log, cfg, t.mask, evs), cfg)
    decreases evs
  {
    if evs != [] {
      var ev := evs[0];
      LaterChronicle(log, start, now, ev.tick);
      DoSimulates(t, log, cfg, ev, start);
      MaskKept(t, cfg, ev);
      hide Simulates, Chronicle, Allowed, Do, LogDo;
      SafeSimulates(Do(t, cfg, ev).table, LogDo(log, cfg, t.mask, ev).log, cfg, evs[1..], start, ev.tick);
    }
  }
}
