// What a rule answers and what it leaves behind, said of the full history of the addresses: which
// stamps count, how many are needed, and which address goes.
module Rules {
  import Division
  import opened Seqs
  import opened Jiffies
  import opened TableModel
  import opened MatchModel
  import opened LogModel
  import R = Ring

  /** The rules that recent_mt_check accepts, one line for each form. */
  lemma AcceptedForms(rule: Rule)
    ensures Accepted(rule) <==>
            && 1 <= |rule.name| <= 199
            && (|| (rule.flags == Flags(false, false, true, false, false, false, false) && rule.seconds == 0 && rule.hitCount == 0)
                || (rule.flags == Flags(false, false, false, true, false, false, false) && rule.seconds == 0 && rule.hitCount == 0)
                || (rule.flags in {Flags(true, false, false, false, false, false, false), Flags(true, false, false, false, true, false, false),
                                   Flags(false, true, false, false, false, false, false), Flags(false, true, false, false, true, false, false)}
                    && rule.hitCount <= 255)
                || (rule.flags in {Flags(true, false, false, false, false, true, false), Flags(true, false, false, false, true, true, false),
                                   Flags(false, true, false, false, false, true, false), Flags(false, true, false, false, true, true, false)}
                    && rule.hitCount <= 255 && rule.seconds > 0))
  {
  }

  // ---------------------------------------------------------------------------
  // Answers

  /** Enough of a history in order is recent exactly if its tick that many places from the end is. */
  lemma EnoughRecent(ticks: seq<nat>, now: nat, window: nat, seconds: nat, need: nat)
    requires need > 0 && forall i, j :: 0 <= i <= j < |ticks| ==> ticks[i] <= ticks[j]
    ensures R.RecentTicks(ticks, now, window, seconds) >= need
            <==> |ticks| >= need && (seconds == 0 || ticks[|ticks| - need] + window >= now)
  {
    if seconds == 0 {
      R.AllRecent(ticks, now, window, seconds);
    } else {
      R.HitByAge(ticks, now, window, seconds, need);
    }
  }

  /** max(1, hitCount) of the stamps are no older than seconds * HZ, computed in 32 bits, or of any age if seconds
      is 0. In a history in order these are the newest, so that the one as many places from the end decides. */
  predicate Hit(rule: Rule, hz: nat, ticks: seq<nat>, now: nat) {
    var need := if rule.hitCount == 0 then 1 else rule.hitCount;
    |ticks| >= need && (rule.seconds == 0 || ticks[|ticks| - need] + (rule.seconds * hz) % 0x1_0000_0000 >= now)
  }

  /** The loop over the stamps of an entry, against its history. */
  lemma HitMeans(rule: Rule, e: Entry, rec: Rec, mask: nat, cfg: Config, start: nat, now: nat)
    requires EntrySim(e, rec, mask) && mask <= 127 && Timed(rec.ticks, start, now) && now <= start + HALF
    requires Accepted(rule) && rule.hitCount <= mask + 1
    ensures e.ring.nstamps <= |e.ring.slots|
    ensures HitBy(rule, e, Cutoff(At(now), Span(rule.seconds, cfg.hz))) <==> Hit(rule, cfg.hz, rec.ticks, now)
  {
    hide EntrySim, HitBy, Cutoff, At, Accepted, R.RecentTicks, R.Timeline;
    assert Serves(mask, rule);
    TimedIsTimeline(rec.ticks, start, now);
    HitInTime(rule, e, rec, mask, now, Span(rule.seconds, cfg.hz));
    EnoughRecent(rec.ticks, now, Span(rule.seconds, cfg.hz), rule.seconds, R.Need(rule.hitCount));
  }

  lemma TimedIsTimeline(ticks: seq<nat>, start: nat, now: nat)
    requires Timed(ticks, start, now) && now <= start + HALF
    ensures R.Timeline(ticks, now) && forall i, j :: 0 <= i <= j < |ticks| ==> ticks[i] <= ticks[j]
  {
  }

  /** The address is known, with a ttl that fits if the rule asks for it. */
  predicate Known(log: Log, rule: Rule, key: Key, ttl: nat) {
    key in log.recs && (rule.flags.ttl ==> ttl == 0 || log.recs[key].ttl == 0 || log.recs[key].ttl == ttl)
  }

  lemma KnownIsFound<P>(t: Table<P>, log: Log, cfg: Config, rule: Rule, key: Key, ttl: nat) returns (found: Option<P>)
    requires Simulates(t, log, cfg)
    ensures Valid(t, cfg) && found == Lookup(t, cfg, key, if rule.flags.ttl then ttl else 0)
    ensures found.Some? <==> Known(log, rule, key, ttl)
    ensures found.Some? ==> found.value in t.store && key in log.recs && EntrySim(t.store[found.value], log.recs[key], t.mask)
    ensures found.Some? ==> t.mask <= 127 && t.store[found.value].ring.nstamps <= |t.store[found.value].ring.slots|
  {
    var wanted := if rule.flags.ttl then ttl else 0;
    LookupIsMap(t, log, cfg, key, wanted);
    found := Lookup(t, cfg, key, wanted);
    if found.Some? {
      FoundInStep(t, log, cfg, found.value);
    }
    hide Lookup, Valid, InStep;
  }

  /** What CHECK and UPDATE answer. */
  lemma TestMeans<P>(t: Table<P>, log: Log, cfg: Config, rule: Rule, key: Key, ttl: nat, start: nat, now: nat, alloc: Alloc<P>)
    requires Simulates(t, log, cfg) && Chronicle(log, start, now) && start <= now <= start + HALF
    requires Accepted(rule) && rule.hitCount <= t.mask + 1 && (rule.flags.check || rule.flags.update)
    requires Valid(t, cfg) && Fits(alloc, t)
    ensures Match(t, cfg, rule, key, ttl, At(now), alloc).verdict
            == ((Known(log, rule, key, ttl) && Hit(rule, cfg.hz, log.recs[key].ticks, now)) != rule.invert)
  {
    var found := KnownIsFound(t, log, cfg, rule, key, ttl);
    AnswerOfTest(t, cfg, rule, key, ttl, At(now), alloc);
    hide Simulates, Match, Lookup, EntrySim, HitBy, Hit, Cutoff, At, Span, Accepted, Fits, Valid;
    if found.Some? {
      assert Timed(log.recs[key].ticks, start, now);
      HitMeans(rule, t.store[found.value], log.recs[key], t.mask, cfg, start, now);
    }
  }

  lemma AnswerOfTest<P>(t: Table<P>, cfg: Config, rule: Rule, key: Key, ttl: nat, now: Stamp, alloc: Alloc<P>)
    requires Valid(t, cfg) && Accepted(rule) && (rule.flags.check || rule.flags.update) && Fits(alloc, t)
    ensures match Lookup(t, cfg, key, if rule.flags.ttl then ttl else 0)
            case None => Match(t, cfg, rule, key, ttl, now, alloc).verdict == rule.invert
            case Some(q) =>
              && q in t.store && t.store[q].ring.nstamps <= |t.store[q].ring.slots|
              && Match(t, cfg, rule, key, ttl, now, alloc).verdict
                 == (HitBy(rule, t.store[q], Cutoff(now, Span(rule.seconds, cfg.hz))) != rule.invert)
  {
    hide Touch, Remove, Reap, Outside, Cutoff, Span, HitBy, HashSize, BucketOf;
  }

  /** Without the overflow of 32 bits, in seconds. */
  lemma CheckMeans<P>(t: Table<P>, log: Log, cfg: Config, rule: Rule, key: Key, ttl: nat, start: nat, now: nat, alloc: Alloc<P>)
    requires Simulates(t, log, cfg) && Chronicle(log, start, now) && start <= now <= start + HALF
    requires Accepted(rule) && rule.hitCount <= t.mask + 1 && rule.flags.check && !rule.flags.ttl && key in log.recs
    requires Valid(t, cfg) && Fits(alloc, t) && rule.seconds * cfg.hz < 0x1_0000_0000
    ensures var (need, ticks) := (if rule.hitCount == 0 then 1 else rule.hitCount, log.recs[key].ticks);
            Match(t, cfg, rule, key, ttl, At(now), alloc).verdict
            == ((|ticks| >= need && (rule.seconds == 0 || ticks[|ticks| - need] + rule.seconds * cfg.hz >= now)) != rule.invert)
  {
    hide Match, Simulates, Chronicle, Valid, Fits, Accepted, At;
    TestMeans(t, log, cfg, rule, key, ttl, start, now, alloc);
    Division.Unique(rule.seconds * cfg.hz, 0x1_0000_0000, 0, rule.seconds * cfg.hz);
  }

  // ---------------------------------------------------------------------------
  // Effects

  lemma WithoutHead<T>(s: seq<T>)
    requires s != [] && Distinct(s)
    ensures Without(s, s[0]) == s[1..]
  {
    assert s[0] !in s[1..];
  }

  /** A new address goes to the end of the order of use; in a full table the address used longest ago makes room. */
  predicate Entered(log: Log, listTot: nat, key: Key, ttl: nat, now: nat, log': Log) {
    if |log.order| < listTot then log' == Log(log.order + [key], log.recs[key := Rec(ttl, [now])])
    else log.order != [] && log' == Log(log.order[1..] + [key], (log.recs - {log.order[0]})[key := Rec(ttl, [now])])
  }

  /** A known address goes to the end, with one more stamp and a new ttl. */
  predicate Stamped(log: Log, key: Key, ttl: nat, now: nat, log': Log) {
    && key in log.recs
    && log' == Log(Without(log.order, key) + [key], log.recs[key := Rec(ttl, log.recs[key].ticks + [now])])
  }

  predicate Gone(log: Log, key: Key, log': Log) {
    log' == Log(Without(log.order, key), log.recs - {key})
  }

  lemma AdmitEnters(log: Log, cfg: Config, key: Key, ttl: nat, now: nat)
    requires LogShape(log) && cfg.listTot > 0
    ensures Entered(log, cfg.listTot, key, ttl, now, Admit(log, cfg, key, ttl, now))
  {
    if |log.order| >= cfg.listTot {
      WithoutHead(log.order);
    }
  }

  /** SET matches every address, and stamps it or enters it. */
  lemma SetMeans<P>(t: Table<P>, log: Log, cfg: Config, rule: Rule, key: Key, ttl: nat, start: nat, now: nat,
                    p: P, memory: seq<Stamp>) returns (log': Log)
    requires Simulates(t, log, cfg) && Chronicle(log, start, now) && start <= now <= start + HALF
    requires Accepted(rule) && rule.flags.set_ && Valid(t, cfg) && |memory| == t.mask + 1 && p !in t.store
    ensures var out := Match(t, cfg, rule, key, ttl, At(now), Memory(p, memory));
            out.verdict == !rule.invert && !out.hotdrop && Simulates(out.table, log', cfg)
    ensures if key in log.recs then Stamped(log, key, ttl, now, log') else Entered(log, cfg.listTot, key, ttl, now, log')
  {
    hide Chronicle, Valid, Touch, Insert, EntrySim, Keyed, EntriesSim, HitBy, Lookup, TestFound, LogTest, At;
    MatchSimulates(t, log, cfg, rule, key, ttl, start, now, p, memory);
    AdmitEnters(log, cfg, key, ttl, now);
    log' := LogMatch(log, cfg, rule, key, ttl, now).log;
  }

  lemma StarvedMatch<P>(t: Table<P>, cfg: Config, rule: Rule, key: Key, ttl: nat, now: Stamp)
    requires Valid(t, cfg) && Accepted(rule)
    ensures var out := Match(t, cfg, rule, key, ttl, now, NoMemory);
            && Linked(t, cfg)
            && (out.hotdrop <==> Lookup(t, cfg, key, if rule.flags.ttl then ttl else 0).None? && rule.flags.set_)
            && (out.hotdrop ==> out.verdict == !rule.invert && out.table == MakeRoom(t, cfg))
  {
    hide Touch, Remove, Reap, Outside, Cutoff, Span, HitBy, HashSize, BucketOf;
  }

  /** Without memory for a new entry SET drops the packet, but the address used longest ago has made room for it. */
  lemma SetStarves<P>(t: Table<P>, log: Log, cfg: Config, rule: Rule, key: Key, ttl: nat, start: nat, now: nat) returns (log': Log)
    requires Simulates(t, log, cfg) && Chronicle(log, start, now) && Accepted(rule) && Valid(t, cfg)
    ensures var out := Match(t, cfg, rule, key, ttl, At(now), NoMemory);
            && (out.hotdrop <==> rule.flags.set_ && key !in log.recs)
            && (out.hotdrop ==> out.verdict == !rule.invert && Simulates(out.table, log', cfg))
    ensures if |log.order| < cfg.listTot then log' == log
            else log.order != [] && log' == Log(log.order[1..], log.recs - {log.order[0]})
  {
    var found := KnownIsFound(t, log, cfg, rule, key, ttl);
    EvictSimulates(t, log, cfg, start, now);
    ShapeInStep(t, log, cfg);
    assert cfg.listTot > 0;
    StarvedMatch(t, cfg, rule, key, ttl, At(now));
    hide Simulates, Chronicle, Valid, EntrySim, Lookup, Match, At, MakeRoom;
    log' := Evict(log, cfg);
    if |log.order| >= cfg.listTot {
      WithoutHead(log.order);
    }
  }

  /** REMOVE matches the addresses that are known, and forgets them. */
  lemma RemoveMeans<P>(t: Table<P>, log: Log, cfg: Config, rule: Rule, key: Key, ttl: nat, start: nat, now: nat,
                       p: P, memory: seq<Stamp>) returns (log': Log)
    requires Simulates(t, log, cfg) && Chronicle(log, start, now) && start <= now <= start + HALF
    requires Accepted(rule) && rule.flags.remove && Valid(t, cfg) && |memory| == t.mask + 1 && p !in t.store
    ensures var out := Match(t, cfg, rule, key, ttl, At(now), Memory(p, memory));
            out.verdict == ((key in log.recs) != rule.invert) && Simulates(out.table, log', cfg)
    ensures if key in log.recs then Gone(log, key, log') else log' == log
  {
    hide Chronicle, Valid, Touch, Insert, EntrySim, Keyed, EntriesSim, HitBy, Lookup, TestFound, LogTest, At;
    MatchSimulates(t, log, cfg, rule, key, ttl, start, now, p, memory);
    log' := LogMatch(log, cfg, rule, key, ttl, now).log;
  }

  /** Under REAP the address used longest ago goes if its last stamp is older than the window. */
  predicate Reaped(log: Log, reap: bool, window: nat, now: nat, log': Log) {
    if reap && log.order != [] && log.order[0] in log.recs && log.recs[log.order[0]].ticks != []
       && Last(log.recs[log.order[0]].ticks) + window < now
    then log' == Log(log.order[1..], log.recs - {log.order[0]}) else log' == log
  }

  lemma KeptIsReaped(log: Log, rule: Rule, start: nat, now: nat, window: nat)
    requires LogShape(log) && Chronicle(log, start, now)
    ensures Reaped(log, rule.flags.reap, window, now, LogKept(log, rule, now, window))
  {
    if log.order != [] {
      WithoutHead(log.order);
      assert log.order[0] in log.order;
      assert Timed(log.recs[log.order[0]].ticks, start, now);
    }
  }

  /** What CHECK and UPDATE leave: they change nothing for an address they do not know; else the reap comes first,
      and then an UPDATE that matches stamps the address, unless the reap has just taken it. */
  lemma TestLeaves<P>(t: Table<P>, log: Log, cfg: Config, rule: Rule, key: Key, ttl: nat, start: nat, now: nat,
                      p: P, memory: seq<Stamp>) returns (kept: Log, log': Log)
    requires Simulates(t, log, cfg) && Chronicle(log, start, now) && start <= now <= start + HALF
    requires Accepted(rule) && rule.hitCount <= t.mask + 1 && (rule.flags.check || rule.flags.update)
    requires Valid(t, cfg) && |memory| == t.mask + 1 && p !in t.store
    ensures Reaped(log, rule.flags.reap && Known(log, rule, key, ttl), (rule.seconds * cfg.hz) % 0x1_0000_0000, now, kept)
    ensures var out := Match(t, cfg, rule, key, ttl, At(now), Memory(p, memory));
            && Simulates(out.table, log', cfg)
            && (if rule.flags.update && out.verdict && Known(log, rule, key, ttl) && key in kept.recs
                then Stamped(kept, key, ttl, now, log') else log' == kept)
            && (out.dangling <==> rule.flags.update && out.verdict && Known(log, rule, key, ttl) && key !in kept.recs)
  {
    hide Chronicle, Valid, Touch, Insert, Reap, EntrySim, Keyed, EntriesSim, HitBy, Lookup, TestFound, At, R.RecentTicks, LogShape, Expire;
    assert Serves(t.mask, rule);
    MatchSimulates(t, log, cfg, rule, key, ttl, start, now, p, memory);
    ShapeInStep(t, log, cfg);
    KeptIsReaped(log, rule, start, now, Span(rule.seconds, cfg.hz));
    log' := LogMatch(log, cfg, rule, key, ttl, now).log;
    kept := if Known(log, rule, key, ttl) then LogKept(log, rule, now, Span(rule.seconds, cfg.hz)) else log;
  }
}
